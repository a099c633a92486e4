/**
  CompactRecords as it runs: five maps updated in place, record by record, and
  then walked in whatever order the maps give.
 */
module Compactor {
  import opened Records
  import C = Compaction
  import opened Emission
  import opened CompactionLaws

  class CompactionState {
    var createdQueues: map<string, Record>
    var createdSubs: map<string, map<string, Record>>
    var inFlightMessages: map<string, Record>
    var remainingSubs: map<string, set<string>>
    var inFlightAcks: map<string, map<string, Record>>

    function Abs(): C.State
      reads this
    {
      C.State(createdQueues, createdSubs, inFlightMessages, remainingSubs, inFlightAcks)
    }

    constructor ()
      ensures Abs() == C.INIT
    {
      createdQueues, createdSubs, inFlightMessages, remainingSubs, inFlightAcks := map[], map[], map[], map[], map[];
    }

    method ApplyDeleteQueue(rec: Record)
      modifies this
      ensures Abs() == C.AppliedDeleteQueue(old(Abs()), rec.queueName)
    {
      var qName := rec.queueName;
      createdQueues := createdQueues - {qName};
      createdSubs := createdSubs - {qName};
      var todo := inFlightMessages.Keys;
      ghost var gone: set<string> := {};
      NoneGone(inFlightMessages, qName);
      hide Gone;
      while todo != {}
        invariant todo <= inFlightMessages.Keys && gone == Gone(old(inFlightMessages), todo, qName)
        invariant createdQueues == old(createdQueues) - {qName} && createdSubs == old(createdSubs) - {qName}
        invariant inFlightMessages == old(inFlightMessages) - gone
        invariant remainingSubs == old(remainingSubs) - gone
        invariant inFlightAcks == old(inFlightAcks) - gone
        decreases todo
      {
        var msgId :| msgId in todo;
        GoneNext(old(inFlightMessages), todo, qName, msgId);
        todo := todo - {msgId};
        if inFlightMessages[msgId].queueName == qName {
          MinusMore(old(inFlightMessages), gone, msgId);
          MinusMore(old(remainingSubs), gone, msgId);
          MinusMore(old(inFlightAcks), gone, msgId);
          inFlightMessages := inFlightMessages - {msgId};
          remainingSubs := remainingSubs - {msgId};
          inFlightAcks := inFlightAcks - {msgId};
          gone := gone + {msgId};
        }
      }
      AllGone(old(inFlightMessages), qName);
    }

    method ApplyEnqueue(rec: Record)
      requires rec.op.Enqueue?
      modifies this
      ensures Abs() == C.AppliedEnqueue(old(Abs()), rec)
    {
      if rec.queueName !in createdQueues || rec.op.subList == map[] {
        return;
      }
      var id, subList := rec.op.msgId, rec.op.subList;
      inFlightMessages := inFlightMessages[id := rec];
      remainingSubs := remainingSubs[id := {}];
      var todo := subList.Keys;
      assert NamesOutside(subList, todo) == {};
      while todo != {}
        invariant todo <= subList.Keys
        invariant createdQueues == old(createdQueues) && createdSubs == old(createdSubs)
        invariant inFlightMessages == old(inFlightMessages)[id := rec] && inFlightAcks == old(inFlightAcks)
        invariant remainingSubs == old(remainingSubs)[id := NamesOutside(subList, todo)]
        decreases todo
      {
        var s :| s in todo;
        ghost var done := NamesOutside(subList, todo);
        todo := todo - {s};
        remainingSubs := remainingSubs[id := remainingSubs[id] + {subList[s].subName}];
        assert NamesOutside(subList, todo) == done + {subList[s].subName};
      }
      assert NamesOutside(subList, todo) == C.SubNames(subList);
    }

    method ApplyAck(rec: Record)
      requires rec.op.Ack?
      modifies this
      ensures Abs() == C.AppliedAck(old(Abs()), rec)
    {
      var id, s := rec.op.ackedId, rec.op.subName;
      if id in remainingSubs {
        remainingSubs := remainingSubs[id := remainingSubs[id] - {s}];
      }
      if id !in inFlightAcks {
        inFlightAcks := inFlightAcks[id := map[]];
      }
      inFlightAcks := inFlightAcks[id := inFlightAcks[id][s := rec]];
      assert inFlightAcks == old(inFlightAcks)[id := C.AcksOf(old(Abs()), id)[s := rec]];
      if id !in remainingSubs || remainingSubs[id] == {} {
        PutThenRemove(old(inFlightAcks), id, inFlightAcks[id]);
        PutThenRemove(old(remainingSubs), id, {});
        remainingSubs := remainingSubs - {id};
        inFlightMessages := inFlightMessages - {id};
        inFlightAcks := inFlightAcks - {id};
        assert remainingSubs == old(remainingSubs) - {id} && inFlightAcks == old(inFlightAcks) - {id};
      }
    }

    method ApplyCreateQueue(rec: Record)
      requires rec.op.CreateQueue?
      modifies this
      ensures Abs() == C.Step(old(Abs()), rec)
    {
      createdQueues := createdQueues[rec.queueName := rec];
      createdSubs := createdSubs[rec.queueName := map[]];
    }

    method ApplyUpdateSubPolicy(rec: Record)
      requires rec.op.UpdateSubPolicy?
      modifies this
      ensures Abs() == C.Step(old(Abs()), rec)
    {
      if rec.queueName in createdSubs {
        createdSubs := createdSubs[rec.queueName := createdSubs[rec.queueName][rec.op.policy.subName := rec]];
      }
    }

    method ApplyDeleteSubPolicy(rec: Record)
      requires rec.op.DeleteSubPolicy?
      modifies this
      ensures Abs() == C.Step(old(Abs()), rec)
    {
      if rec.queueName in createdSubs {
        createdSubs := createdSubs[rec.queueName := createdSubs[rec.queueName] - {rec.op.removed.subName}];
      }
    }

    /** compacted(): the four groups, each in whatever order its map is walked. */
    method Compacted() returns (compactedRecs: seq<Record>, ghost order: seq<Fact>)
      ensures IsOrder(Abs(), order) && compactedRecs == Emit(Abs(), order)
    {
      compactedRecs, order := EmitQueues();
      compactedRecs, order := EmitPolicies(compactedRecs, order);
      compactedRecs, order := EmitMessages(compactedRecs, order);
      ghost var P := QueueFacts(Abs()) + PolicyFacts(Abs(), createdSubs.Keys) +
        MessageFacts(Abs(), inFlightMessages.Keys);
      compactedRecs, order := EmitAcks(compactedRecs, order, P);
      AllFacts(Abs());
    }

    method EmitQueues() returns (out: seq<Record>, ghost order: seq<Fact>)
      ensures Emitted(Abs(), order, out, QueueFacts(Abs()))
    {
      out, order := [], [];
      var todo := createdQueues.Keys;
      while todo != {}
        invariant todo <= createdQueues.Keys
        invariant Emitted(Abs(), order, out, set q | q in createdQueues && q !in todo :: QueueFact(q))
        decreases todo
      {
        var q :| q in todo;
        ghost var S := set x | x in createdQueues && x !in todo :: QueueFact(x);
        todo := todo - {q};
        EmittedSnoc(Abs(), order, out, S, QueueFact(q));
        out := out + [createdQueues[q]];
        order := order + [QueueFact(q)];
        assert (set x | x in createdQueues && x !in todo :: QueueFact(x)) == S + {QueueFact(q)};
      }
    }

    method EmitPolicies(prior: seq<Record>, ghost priorOrder: seq<Fact>)
      returns (out: seq<Record>, ghost order: seq<Fact>)
      requires Emitted(Abs(), priorOrder, prior, QueueFacts(Abs()))
      ensures Emitted(Abs(), order, out, QueueFacts(Abs()) + PolicyFacts(Abs(), createdSubs.Keys))
    {
      hide Emitted;
      out, order := prior, priorOrder;
      ghost var P := QueueFacts(Abs());
      var todo := createdSubs.Keys;
      ghost var done: set<string> := {};
      assert P == P + PolicyFacts(Abs(), {});
      while todo != {}
        invariant todo <= createdSubs.Keys && done == createdSubs.Keys - todo
        invariant Emitted(Abs(), order, out, P + PolicyFacts(Abs(), done))
        decreases todo
      {
        var q :| q in todo;
        todo := todo - {q};
        PolicyFactsSnoc(Abs(), done, q);
        out, order := EmitPoliciesOf(q, out, order, P + PolicyFacts(Abs(), done));
        assert P + PolicyFacts(Abs(), done) + PolicyFactsOf(q, createdSubs[q].Keys) ==
          P + PolicyFacts(Abs(), done + {q});
        done := done + {q};
      }
      assert done == createdSubs.Keys;
    }

    method EmitPoliciesOf(q: string, prior: seq<Record>, ghost priorOrder: seq<Fact>, ghost S: set<Fact>)
      returns (out: seq<Record>, ghost order: seq<Fact>)
      requires q in createdSubs && Emitted(Abs(), priorOrder, prior, S)
      requires forall f :: f in S ==> f.QueueFact? || (f.PolicyFact? && f.queue != q)
      ensures Emitted(Abs(), order, out, S + PolicyFactsOf(q, createdSubs[q].Keys))
    {
      hide Emitted;
      out, order := prior, priorOrder;
      var recs := createdSubs[q];
      var subs := recs.Keys;
      assert S == S + PolicyFactsOf(q, recs.Keys - subs);
      while subs != {}
        invariant subs <= recs.Keys
        invariant Emitted(Abs(), order, out, S + PolicyFactsOf(q, recs.Keys - subs))
        decreases subs
      {
        var s :| s in subs;
        ghost var T := S + PolicyFactsOf(q, recs.Keys - subs);
        subs := subs - {s};
        EmittedSnoc(Abs(), order, out, T, PolicyFact(q, s));
        out := out + [recs[s]];
        order := order + [PolicyFact(q, s)];
        assert S + PolicyFactsOf(q, recs.Keys - subs) == T + {PolicyFact(q, s)};
      }
      assert recs.Keys - subs == recs.Keys;
    }

    method EmitMessages(prior: seq<Record>, ghost priorOrder: seq<Fact>)
      returns (out: seq<Record>, ghost order: seq<Fact>)
      requires Emitted(Abs(), priorOrder, prior, QueueFacts(Abs()) + PolicyFacts(Abs(), createdSubs.Keys))
      ensures Emitted(Abs(), order, out,
                      QueueFacts(Abs()) + PolicyFacts(Abs(), createdSubs.Keys) +
                        MessageFacts(Abs(), inFlightMessages.Keys))
    {
      out, order := prior, priorOrder;
      ghost var P := QueueFacts(Abs()) + PolicyFacts(Abs(), createdSubs.Keys);
      var todo := inFlightMessages.Keys;
      assert P == P + MessageFacts(Abs(), {});
      while todo != {}
        invariant todo <= inFlightMessages.Keys
        invariant Emitted(Abs(), order, out, P + MessageFacts(Abs(), inFlightMessages.Keys - todo))
        decreases todo
      {
        var id :| id in todo;
        ghost var S := P + MessageFacts(Abs(), inFlightMessages.Keys - todo);
        ghost var f := MessageFact(inFlightMessages[id].queueName, id);
        todo := todo - {id};
        EmittedSnoc(Abs(), order, out, S, f);
        out := out + [inFlightMessages[id]];
        order := order + [f];
        assert P + MessageFacts(Abs(), inFlightMessages.Keys - todo) == S + {f};
      }
      assert inFlightMessages.Keys - todo == inFlightMessages.Keys;
    }

    method EmitAcks(prior: seq<Record>, ghost priorOrder: seq<Fact>, ghost P: set<Fact>)
      returns (out: seq<Record>, ghost order: seq<Fact>)
      requires Emitted(Abs(), priorOrder, prior, P) && forall f :: f in P ==> !f.AckFact?
      ensures Emitted(Abs(), order, out, P + AckFacts(Abs(), inFlightAcks.Keys))
    {
      out, order := prior, priorOrder;
      var todo := inFlightAcks.Keys;
      ghost var done: set<string> := {};
      assert P == P + AckFacts(Abs(), {});
      while todo != {}
        invariant todo <= inFlightAcks.Keys && done == inFlightAcks.Keys - todo
        invariant Emitted(Abs(), order, out, P + AckFacts(Abs(), done))
        decreases todo
      {
        var id :| id in todo;
        todo := todo - {id};
        AckFactsSnoc(Abs(), done, id);
        out, order := EmitAcksOf(id, out, order, P + AckFacts(Abs(), done));
        assert P + AckFacts(Abs(), done) + AckFactsOf(inFlightAcks[id], id, inFlightAcks[id].Keys) ==
               P + AckFacts(Abs(), done + {id});
        done := done + {id};
      }
      assert done == inFlightAcks.Keys;
    }

    method EmitAcksOf(id: string, prior: seq<Record>, ghost priorOrder: seq<Fact>, ghost S: set<Fact>)
      returns (out: seq<Record>, ghost order: seq<Fact>)
      requires id in inFlightAcks && Emitted(Abs(), priorOrder, prior, S)
      requires forall f :: f in S ==> !(f.AckFact? && f.id == id)
      ensures Emitted(Abs(), order, out, S + AckFactsOf(inFlightAcks[id], id, inFlightAcks[id].Keys))
    {
      out, order := prior, priorOrder;
      var recs := inFlightAcks[id];
      var acks := recs.Keys;
      assert S == S + AckFactsOf(recs, id, recs.Keys - acks);
      while acks != {}
        invariant acks <= recs.Keys
        invariant Emitted(Abs(), order, out, S + AckFactsOf(recs, id, recs.Keys - acks))
        decreases acks
      {
        var s :| s in acks;
        ghost var T := S + AckFactsOf(recs, id, recs.Keys - acks);
        ghost var f := AckFact(recs[s].queueName, id, s);
        acks := acks - {s};
        EmittedSnoc(Abs(), order, out, T, f);
        out := out + [recs[s]];
        order := order + [f];
        assert S + AckFactsOf(recs, id, recs.Keys - acks) == T + {f};
      }
      assert recs.Keys - acks == recs.Keys;
    }
  }

  /** The messages of queue q that are deleted when those in `todo` are still to be looked at. */
  ghost function Gone(msgs: map<string, Record>, todo: set<string>, q: string): set<string> {
    set id | id in msgs && id !in todo && msgs[id].queueName == q
  }

  lemma NoneGone(msgs: map<string, Record>, q: string)
    ensures Gone(msgs, msgs.Keys, q) == {}
  {
  }

  lemma GoneNext(msgs: map<string, Record>, todo: set<string>, q: string, id: string)
    requires id in todo && id in msgs
    ensures Gone(msgs, todo - {id}, q) == Gone(msgs, todo, q) + if msgs[id].queueName == q then {id} else {}
    ensures id !in Gone(msgs, todo, q)
  {
  }

  lemma AllGone(msgs: map<string, Record>, q: string)
    ensures Gone(msgs, {}, q) == set id | id in msgs && msgs[id].queueName == q
  {
  }

  lemma MinusMore<K, V>(m: map<K, V>, gone: set<K>, k: K)
    ensures (m - gone) - {k} == m - (gone + {k})
  {
  }

  lemma PutThenRemove<K, V>(m: map<K, V>, k: K, v: V)
    ensures m[k := v] - {k} == m - {k}
  {
  }

  lemma AllFacts(cs: C.State)
    ensures
      QueueFacts(cs) + PolicyFacts(cs, cs.subs.Keys) + MessageFacts(cs, cs.msgs.Keys) + AckFacts(cs, cs.acks.Keys) ==
      Facts(cs)
  {
  }

  lemma PolicyFactsSnoc(cs: C.State, qs: set<string>, q: string)
    requires q in cs.subs
    ensures PolicyFacts(cs, qs + {q}) == PolicyFacts(cs, qs) + PolicyFactsOf(q, cs.subs[q].Keys)
  {
  }

  lemma AckFactsSnoc(cs: C.State, ids: set<string>, id: string)
    requires id in cs.acks
    ensures AckFacts(cs, ids + {id}) == AckFacts(cs, ids) + AckFactsOf(cs.acks[id], id, cs.acks[id].Keys)
  {
  }

  ghost function NamesOutside(subList: map<string, SubPolicy>, todo: set<string>): set<string> {
    set s | s in subList && s !in todo :: subList[s].subName
  }

  ghost function QueueFacts(cs: C.State): set<Fact> {
    set q | q in cs.queues :: QueueFact(q)
  }

  ghost function PolicyFacts(cs: C.State, qs: set<string>): set<Fact> {
    set q, s | q in qs && q in cs.subs && s in cs.subs[q] :: PolicyFact(q, s)
  }

  ghost function PolicyFactsOf(q: string, subs: set<string>): set<Fact> {
    set s | s in subs :: PolicyFact(q, s)
  }

  ghost function MessageFacts(cs: C.State, ids: set<string>): set<Fact> {
    set id | id in ids && id in cs.msgs :: MessageFact(cs.msgs[id].queueName, id)
  }

  ghost function AckFactsOf(acks: map<string, Record>, id: string, subs: set<string>): set<Fact> {
    set s | s in subs && s in acks :: AckFact(acks[s].queueName, id, s)
  }

  ghost function AckFacts(cs: C.State, ids: set<string>): set<Fact> {
    set id, s | id in ids && id in cs.acks && s in cs.acks[id] :: AckFact(cs.acks[id][s].queueName, id, s)
  }

  /** `out` emits exactly the facts `S`, grouped and without repeats. */
  ghost predicate Emitted(cs: C.State, order: seq<Fact>, out: seq<Record>, S: set<Fact>) {
    Members(order) == S && Distinct(order) && Grouped(order) && out == Emit(cs, order)
  }

  lemma EmittedSnoc(cs: C.State, order: seq<Fact>, out: seq<Record>, S: set<Fact>, f: Fact)
    requires Emitted(cs, order, out, S) && f !in S && Has(cs, f)
    requires forall g :: g in S ==> Group(g) <= Group(f)
    ensures Emitted(cs, order + [f], out + [RecordFor(cs, f)], S + {f})
  {
    forall i | 0 <= i < |order| ensures order[i] != f && Group(order[i]) <= Group(f) {
      assert order[i] in Members(order);
    }
    assert Members(order + [f]) == S + {f};
    EmitSplit(cs, order, [f]);
  }

  /** CompactRecords: the result is a possible emission of the fold of the input. */
  method CompactRecords(recs: seq<Record>) returns (out: seq<Record>)
    ensures Compacts(recs, out)
  {
    var s := new CompactionState();
    for i := 0 to |recs|
      invariant s.Abs() == C.Fold(C.INIT, recs[..i])
    {
      var rec := recs[i];
      assert recs[..i + 1][..i] == recs[..i];
      match rec.op {
        case Enqueue(_, _, _) => s.ApplyEnqueue(rec);
        case Ack(_, _) => s.ApplyAck(rec);
        case CreateQueue => s.ApplyCreateQueue(rec);
        case DeleteQueue => s.ApplyDeleteQueue(rec);
        case UpdateSubPolicy(_) => s.ApplyUpdateSubPolicy(rec);
        case DeleteSubPolicy(_) => s.ApplyDeleteSubPolicy(rec);
        case _ =>
      }
    }
    assert recs[..|recs|] == recs;
    ghost var order;
    out, order := s.Compacted();
  }
}
