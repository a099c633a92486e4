/**
  How short a log with a given meaning can be. Each replayed record adds at most
  one fact, so no log is shorter than the facts it must establish; compaction
  attains that bound exactly when it kept no stray ack.
 */
module Minimality {
  import opened Options
  import opened Records
  import LS = LiveState
  import R = Replay
  import C = Compaction
  import opened Emission
  import opened CompactionLaws

  // ---- The facts of a replayed state ----

  predicate Replayed(st: R.State, f: Fact) {
    match f
    case QueueFact(q) => q in st.catalog
    case PolicyFact(q, s) => q in st.catalog && s in st.catalog[q]
    case MessageFact(q, id) => q in st.queues && id in st.queues[q]
    case AckFact(q, id, s) => q in st.queues && id in st.queues[q] && s in st.queues[q][id].acked
  }

  function ReplayedFacts(st: R.State): set<Fact> {
    (set q | q in st.catalog :: QueueFact(q)) +
    (set q, s | q in st.catalog && s in st.catalog[q] :: PolicyFact(q, s)) +
    (set q, id | q in st.queues && id in st.queues[q] :: MessageFact(q, id)) +
    (set q, id, s | q in st.queues && id in st.queues[q] && s in st.queues[q][id].acked :: AckFact(q, id, s))
  }

  lemma ReplayedFactsAre(st: R.State, f: Fact)
    ensures f in ReplayedFacts(st) <==> Replayed(st, f)
  {
  }

  /** The one fact a record can add. */
  function Adds(r: Record): Fact {
    match r.op
    case Enqueue(id, _, _) => MessageFact(r.queueName, id)
    case Ack(id, s) => AckFact(r.queueName, id, s)
    case UpdateSubPolicy(p) => PolicyFact(r.queueName, p.subName)
    case _ => QueueFact(r.queueName)
  }

  lemma StepAddsAtMost(st: R.State, r: Record, f: Fact)
    requires R.Step(st, r).Some? && Replayed(R.Step(st, r).value, f)
    ensures f == Adds(r) || Replayed(st, f)
  {
  }

  lemma StepAddsOne(st: R.State, r: Record)
    requires R.Step(st, r).Some?
    ensures |ReplayedFacts(R.Step(st, r).value)| <= |ReplayedFacts(st)| + 1
  {
    var st' := R.Step(st, r).value;
    forall f | f in ReplayedFacts(st') ensures f in ReplayedFacts(st) + {Adds(r)} {
      ReplayedFactsAre(st', f);
      StepAddsAtMost(st, r, f);
      ReplayedFactsAre(st, f);
    }
    SubsetSize(ReplayedFacts(st'), ReplayedFacts(st) + {Adds(r)});
  }

  lemma {:induction false} SubsetSize<T>(a: set<T>, b: set<T>)
    requires a <= b
    ensures |a| <= |b|
  {
    assert |b| == |a| + |b - a| by {
      assert b == a + (b - a);
    }
  }

  lemma {:induction false} LogAtLeastFacts(recs: seq<Record>)
    requires R.Run(R.INIT, recs).Some?
    ensures |ReplayedFacts(R.Run(R.INIT, recs).value)| <= |recs|
    decreases |recs|
  {
    if recs == [] {
      assert ReplayedFacts(R.INIT) == {};
    } else {
      LogAtLeastFacts(recs[..|recs| - 1]);
      StepAddsOne(R.Run(R.INIT, recs[..|recs| - 1]).value, recs[|recs| - 1]);
    }
  }

  // ---- The facts of a live state ----

  predicate Holds(l: LS.Live, f: Fact) {
    match f
    case QueueFact(q) => q in l.catalog
    case PolicyFact(q, s) => q in l.catalog && s in l.catalog[q]
    case MessageFact(q, id) => LS.Key(q, id) in l.pending
    case AckFact(q, id, s) => LS.Key(q, id) in l.pending && s in l.pending[LS.Key(q, id)].acked
  }

  function LiveFacts(l: LS.Live): set<Fact> {
    (set q | q in l.catalog :: QueueFact(q)) +
    (set q, s | q in l.catalog && s in l.catalog[q] :: PolicyFact(q, s)) +
    (set k | k in l.pending :: MessageFact(k.queue, k.id)) +
    (set k, s | k in l.pending && s in l.pending[k].acked :: AckFact(k.queue, k.id, s))
  }

  lemma LiveFactsAre(l: LS.Live, f: Fact)
    ensures f in LiveFacts(l) <==> Holds(l, f)
  {
    if f.MessageFact? || f.AckFact? {
      assert forall k: LS.Key :: k.queue == f.queue && k.id == f.id ==> k == LS.Key(f.queue, f.id);
      assert LS.Key(f.queue, f.id).queue == f.queue;
    }
  }

  /** The lower bound: no sequence of records with live state `l` is shorter than l's facts. */
  lemma NoShorterLog(recs: seq<Record>, l: LS.Live)
    requires R.Recovered(recs) == Some(l)
    ensures |LiveFacts(l)| <= |recs|
  {
    var st := R.Run(R.INIT, recs).value;
    forall f | f in LiveFacts(l) ensures f in ReplayedFacts(st) {
      LiveFactsAre(l, f);
      ReplayedFactsAre(st, f);
      if f.MessageFact? || f.AckFact? { R.LivePending(st, LS.Key(f.queue, f.id)); }
    }
    SubsetSize(LiveFacts(l), ReplayedFacts(st));
    LogAtLeastFacts(recs);
  }

  // ---- What compaction emits ----

  /** An ack kept for a subscriber that the message was never addressed to. */
  predicate Stray(cs: C.State, f: Fact) {
    f.AckFact? && f.id in cs.msgs && cs.msgs[f.id].op.Enqueue? && f.sub !in cs.msgs[f.id].op.subList
  }

  ghost predicate NoStray(cs: C.State) {
    forall f :: Has(cs, f) ==> !Stray(cs, f)
  }

  lemma EmittedFacts(cs: C.State, f: Fact)
    requires C.Inv(cs)
    ensures Holds(C.LiveOf(cs), f) <==> Has(cs, f) && !Stray(cs, f)
  {
    if f.MessageFact? || f.AckFact? {
      C.PendingAt(cs, LS.Key(f.queue, f.id));
      if f.id in cs.msgs { assert C.MessageInv(cs, f.id); }
      if f.id in cs.acks { assert C.AcksInv(cs, f.id); }
    }
  }

  lemma {:induction false} DistinctSize(order: seq<Fact>)
    requires Distinct(order)
    ensures |Members(order)| == |order|
  {
    if order != [] {
      var n := |order| - 1;
      DistinctSize(order[..n]);
      assert Members(order) == Members(order[..n]) + {order[n]};
      assert order[n] !in Members(order[..n]);
    }
  }

  lemma LiveFactsOfCompaction(cs: C.State)
    requires C.Inv(cs) && NoStray(cs)
    ensures LiveFacts(C.LiveOf(cs)) == Facts(cs)
  {
    forall f: Fact ensures f in LiveFacts(C.LiveOf(cs)) <==> f in Facts(cs) {
      LiveFactsAre(C.LiveOf(cs), f);
      EmittedFacts(cs, f);
      FactsAre(cs, f);
    }
  }

  // ---- Leaving the strays out ----

  function Kept(cs: C.State, order: seq<Fact>): seq<Fact> {
    if order == [] then []
    else Kept(cs, order[..|order| - 1]) + (if Stray(cs, order[|order| - 1]) then [] else [order[|order| - 1]])
  }

  lemma {:induction false} KeptMembers(cs: C.State, order: seq<Fact>, f: Fact)
    ensures f in Members(Kept(cs, order)) <==> f in Members(order) && !Stray(cs, f)
    decreases |order|
  {
    if order != [] {
      KeptMembers(cs, order[..|order| - 1], f);
      assert order == order[..|order| - 1] + [order[|order| - 1]];
    }
  }

  lemma BuildableSnoc(cs: C.State, order: seq<Fact>, f: Fact)
    requires Buildable(cs, order) && Has(cs, f) && f !in Members(order) && Needs(Members(order), f)
    ensures Buildable(cs, order + [f])
  {
    var next := order + [f];
    forall i | 0 <= i < |next| ensures Has(cs, next[i]) && Needs(Members(next[..i]), next[i]) {
      if i < |order| {
        assert next[..i] == order[..i];
      } else {
        assert next[..i] == order;
      }
    }
  }

  lemma {:induction false} KeptIsBuildable(cs: C.State, order: seq<Fact>)
    requires Buildable(cs, order)
    ensures Buildable(cs, Kept(cs, order))
    decreases |order|
  {
    if order != [] {
      var before, f := order[..|order| - 1], order[|order| - 1];
      forall i | 0 <= i < |before| ensures Needs(Members(before[..i]), before[i]) {
        assert before[..i] == order[..i];
      }
      KeptIsBuildable(cs, before);
      forall g: Fact ensures g in Members(Kept(cs, before)) <==> g in Members(before) && !Stray(cs, g) {
        KeptMembers(cs, before, g);
      }
      if Stray(cs, f) {
        assert Kept(cs, order) == Kept(cs, before);
      } else {
        BuildableSnoc(cs, Kept(cs, before), f);
      }
    }
  }

  lemma StraysOnlyAcks(cs: C.State, S: set<Fact>)
    requires cs.queues.Keys == cs.subs.Keys && forall f :: f in S <==> Has(cs, f) && !Stray(cs, f)
    ensures AllSubsIn(cs, S) == cs.subs && MsgsIn(cs, S) == cs.msgs
  {
    forall q | q in cs.subs ensures SubsIn(cs, q, S) == cs.subs[q] {}
    assert forall q :: q in cs.subs ==> Has(cs, QueueFact(q)) && QueueFact(q) in S;
    assert forall id :: id in cs.msgs ==> Has(cs, MessageFact(cs.msgs[id].queueName, id));
  }

  lemma StraysDoNotShow(cs: C.State, S: set<Fact>)
    requires C.Inv(cs) && forall f :: f in S <==> Has(cs, f) && !Stray(cs, f)
    ensures C.LiveOf(Restrict(cs, S)) == C.LiveOf(cs)
  {
    var cs' := Restrict(cs, S);
    StraysOnlyAcks(cs, S);
    forall id | id in cs.msgs
      ensures C.MessageOf(cs.msgs[id], C.AcksOf(cs', id)) == C.MessageOf(cs.msgs[id], C.AcksOf(cs, id))
    {
      StrayAcksDoNotShow(cs, S, id);
    }
    SamePendingView(cs, cs');
    hide C.Inv, C.PendingOf, Has, Stray;
    assert C.CatalogOf(cs') == C.CatalogOf(cs);
  }

  lemma SamePendingView(cs: C.State, cs': C.State)
    requires cs'.msgs == cs.msgs
    requires forall id :: id in cs.msgs ==>
             C.MessageOf(cs.msgs[id], C.AcksOf(cs', id)) == C.MessageOf(cs.msgs[id], C.AcksOf(cs, id))
    ensures C.PendingOf(cs') == C.PendingOf(cs)
  {
    C.PendingDomain(cs);
    hide C.PendingOf, C.MessageOf, C.AcksOf;
    C.PendingIs(cs', C.PendingOf(cs));
  }

  lemma StrayAcksDoNotShow(cs: C.State, S: set<Fact>, id: string)
    requires C.Inv(cs) && id in cs.msgs && forall f :: f in S <==> Has(cs, f) && !Stray(cs, f)
    ensures C.MessageOf(cs.msgs[id], C.AcksOf(Restrict(cs, S), id)) == C.MessageOf(cs.msgs[id], C.AcksOf(cs, id))
  {
    AcksOfRestrict(cs, S, id);
    var subs, acks := cs.msgs[id].op, C.AcksOf(cs, id);
    assert C.MessageInv(cs, id);
    forall s | s in subs.subList && s in acks ensures s in AcksIn(cs, id, S) {
      var f := AckFact(acks[s].queueName, id, s);
      assert Has(cs, f) && !Stray(cs, f);
    }
    assert subs.subList.Keys * AcksIn(cs, id, S).Keys == subs.subList.Keys * acks.Keys;
  }

  lemma KeptRestricts(cs: C.State, order: seq<Fact>)
    requires C.Inv(cs) && IsOrder(cs, order)
    ensures forall f :: f in Members(Kept(cs, order)) <==> Has(cs, f) && !Stray(cs, f)
  {
    forall f: Fact ensures f in Members(Kept(cs, order)) <==> Has(cs, f) && !Stray(cs, f) {
      KeptMembers(cs, order, f);
      FactsAre(cs, f);
    }
  }

  lemma KeptIsShorter(cs: C.State, order: seq<Fact>)
    requires C.Inv(cs) && IsOrder(cs, order) && !NoStray(cs) && Distinct(Kept(cs, order))
    ensures |Kept(cs, order)| < |order|
  {
    var f :| Has(cs, f) && Stray(cs, f);
    KeptRestricts(cs, order);
    FactsAre(cs, f);
    forall g | g in Members(Kept(cs, order)) ensures g in Members(order) - {f} {
      KeptMembers(cs, order, g);
    }
    DistinctSize(order);
    DistinctSize(Kept(cs, order));
    SubsetSize(Members(Kept(cs, order)), Members(order) - {f});
  }

  /** Without its stray acks an emission is shorter and still recovers the same live state. */
  lemma KeptRecovers(cs: C.State, order: seq<Fact>)
    requires C.Inv(cs) && IsOrder(cs, order)
    ensures R.Recovered(Emit(cs, Kept(cs, order))) == Some(C.LiveOf(cs))
    ensures Distinct(Kept(cs, order))
  {
    var kept := Kept(cs, order);
    KeptRestricts(cs, order);
    OrderIsBuildable(cs, order);
    KeptIsBuildable(cs, order);
    PrefixRebuilds(cs, kept, |kept|);
    assert kept[..|kept|] == kept;
    StraysDoNotShow(cs, Members(kept));
    C.FoldOfLegal(Emit(cs, kept));
    R.LegalLogRecovers(Emit(cs, kept));
  }

  /** The minimality law: a compacted log is no longer than any record sequence
      whatsoever with its meaning, if and only if it kept no stray ack. */
  lemma MinimalIffNoStray(recs: seq<Record>, out: seq<Record>)
    requires LS.ServedLog(recs) && Compacts(recs, out)
    ensures NoStray(C.Fold(C.INIT, recs)) <==>
              (forall other :: R.Recovered(other) == Some(LS.Run(LS.NOTHING, recs)) ==> |out| <= |other|)
  {
    var cs := C.Fold(C.INIT, recs);
    var order :| IsOrder(cs, order) && out == Emit(cs, order);
    C.FoldOfServed(recs);
    if NoStray(cs) {
      LiveFactsOfCompaction(cs);
      DistinctSize(order);
      forall other | R.Recovered(other) == Some(LS.Run(LS.NOTHING, recs)) ensures |out| <= |other| {
        NoShorterLog(other, C.LiveOf(cs));
      }
    } else {
      KeptRecovers(cs, order);
      KeptIsShorter(cs, order);
      assert R.Recovered(Emit(cs, Kept(cs, order))) == Some(LS.Run(LS.NOTHING, recs));
    }
  }

  /** Every ack names a subscriber that its message was addressed to. */
  ghost predicate Addressed(recs: seq<Record>) {
    recs == [] ||
    var before, r := recs[..|recs| - 1], recs[|recs| - 1];
    && Addressed(before)
    && (r.op.Ack? ==>
          var k, p := LS.Key(r.queueName, r.op.ackedId), LS.Run(LS.NOTHING, before).pending;
          k in p ==> r.op.subName in p[k].subList)
  }

  lemma AckKeepsNoStray(cs: C.State, r: Record, f: Fact)
    requires NoStray(cs) && r.op.Ack? && r.op.ackedId in cs.msgs && cs.msgs[r.op.ackedId].op.Enqueue?
    requires r.op.subName in cs.msgs[r.op.ackedId].op.subList
    requires Has(C.AppliedAck(cs, r), f)
    ensures !Stray(C.AppliedAck(cs, r), f)
  {
    AckKeepsRecords(cs, r, f);
    if Has(cs, f) {
      assert !Stray(cs, f);
    }
  }

  lemma EnqueueKeepsNoStray(cs: C.State, r: Record, f: Fact)
    requires C.Inv(cs) && NoStray(cs) && r.op.Enqueue? && r.op.msgId !in cs.msgs
    requires Has(C.AppliedEnqueue(cs, r), f)
    ensures !Stray(C.AppliedEnqueue(cs, r), f)
  {
    if f.AckFact? {
      assert Has(cs, f) && !Stray(cs, f);
    }
  }

  lemma OthersKeepNoStray(cs: C.State, cs': C.State, f: Fact)
    requires NoStray(cs) && Has(cs', f)
    requires forall id :: id in cs'.acks ==> id in cs.acks && cs'.acks[id] == cs.acks[id]
    requires forall id :: id in cs'.msgs ==> id in cs.msgs && cs'.msgs[id] == cs.msgs[id]
    ensures !Stray(cs', f)
  {
    if f.AckFact? {
      assert Has(cs, f) && !Stray(cs, f);
    }
  }

  lemma OthersKeepFacts(cs: C.State, r: Record)
    requires !r.op.Ack? && !r.op.Enqueue?
    ensures forall id :: id in C.Step(cs, r).acks ==> id in cs.acks && C.Step(cs, r).acks[id] == cs.acks[id]
    ensures forall id :: id in C.Step(cs, r).msgs ==> id in cs.msgs && C.Step(cs, r).msgs[id] == cs.msgs[id]
  {
  }

  /** What the message is that a served ack or enqueue names. */
  lemma ServedTarget(cs: C.State, r: Record)
    requires C.Inv(cs) && LS.Served(C.LiveOf(cs), r)
    ensures r.op.Enqueue? ==> r.op.msgId !in cs.msgs
    ensures
      r.op.Ack? && r.op.ackedId in cs.msgs ==>
        var k := LS.Key(r.queueName, r.op.ackedId);
        && k in C.PendingOf(cs) && cs.msgs[k.id].queueName == r.queueName && cs.msgs[k.id].op.Enqueue?
        && C.PendingOf(cs)[k].subList == cs.msgs[k.id].op.subList
  {
    hide C.CatalogInv, C.PendingOf;
    C.PendingDomain(cs);
    if r.op.Ack? && r.op.ackedId in cs.msgs {
      C.AckTarget(cs, r);
      assert C.MessageInv(cs, r.op.ackedId);
    }
    assert forall id :: id in cs.msgs ==> LS.Key(cs.msgs[id].queueName, id) in C.PendingOf(cs);
  }

  lemma StepKeepsNoStray(cs: C.State, r: Record)
    requires C.Inv(cs) && NoStray(cs) && (r.op.Enqueue? ==> r.op.msgId !in cs.msgs)
    requires
      r.op.Ack? ==>
        && r.op.ackedId in cs.msgs && cs.msgs[r.op.ackedId].op.Enqueue?
        && r.op.subName in cs.msgs[r.op.ackedId].op.subList
    ensures NoStray(C.Step(cs, r))
  {
    hide C.Inv, Has, Stray, C.AppliedAck, C.AppliedEnqueue, C.AppliedDeleteQueue;
    forall f | Has(C.Step(cs, r), f) ensures !Stray(C.Step(cs, r), f) {
      match r.op {
        case Ack(id, _) => AckKeepsNoStray(cs, r, f);
        case Enqueue(id, _, _) => EnqueueKeepsNoStray(cs, r, f);
        case _ => OthersKeepFacts(cs, r); OthersKeepNoStray(cs, C.Step(cs, r), f);
      }
    }
  }

  lemma {:induction false} AddressedHasNoStray(recs: seq<Record>)
    requires LS.ServedLog(recs) && Addressed(recs)
    ensures NoStray(C.Fold(C.INIT, recs))
    decreases |recs|
  {
    if recs != [] {
      var before, r := recs[..|recs| - 1], recs[|recs| - 1];
      AddressedHasNoStray(before);
      C.FoldOfServed(before);
      ServedTarget(C.Fold(C.INIT, before), r);
      if r.op.Ack? && r.op.ackedId !in C.Fold(C.INIT, before).msgs {
        C.LateAckIsDropped(C.Fold(C.INIT, before), r);
      } else {
        StepKeepsNoStray(C.Fold(C.INIT, before), r);
      }
    }
  }

  /** When acks only name addressees, compaction is minimal. */
  lemma CompactionIsMinimal(recs: seq<Record>, out: seq<Record>, other: seq<Record>)
    requires LS.ServedLog(recs) && Addressed(recs) && Compacts(recs, out)
    requires R.Recovered(other) == Some(LS.Run(LS.NOTHING, recs))
    ensures |out| <= |other|
  {
    AddressedHasNoStray(recs);
    MinimalIffNoStray(recs, out);
  }
}
