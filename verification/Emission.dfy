/**
  What compaction writes out. Every live fact (a queue, a policy, a message, an
  ack) is one record, in any order that respects the four groups of
  `compacted()`; folding the output rebuilds the compaction state exactly.
 */
module Emission {
  import opened Records
  import LS = LiveState
  import C = Compaction

  datatype Fact =
    | QueueFact(queue: string)
    | PolicyFact(queue: string, sub: string)
    | MessageFact(queue: string, id: string)
    | AckFact(queue: string, id: string, sub: string)

  /** The group that `compacted()` emits a fact in. */
  function Group(f: Fact): nat {
    match f
    case QueueFact(_) => 0
    case PolicyFact(_, _) => 1
    case MessageFact(_, _) => 2
    case AckFact(_, _, _) => 3
  }

  predicate Has(cs: C.State, f: Fact) {
    match f
    case QueueFact(q) => q in cs.queues
    case PolicyFact(q, s) => q in cs.subs && s in cs.subs[q]
    case MessageFact(q, id) => id in cs.msgs && cs.msgs[id].queueName == q
    case AckFact(q, id, s) => id in cs.acks && s in cs.acks[id] && cs.acks[id][s].queueName == q
  }

  function Facts(cs: C.State): set<Fact> {
    (set q | q in cs.queues :: QueueFact(q)) +
    (set q, s | q in cs.subs && s in cs.subs[q] :: PolicyFact(q, s)) +
    (set id | id in cs.msgs :: MessageFact(cs.msgs[id].queueName, id)) +
    (set id, s | id in cs.acks && s in cs.acks[id] :: AckFact(cs.acks[id][s].queueName, id, s))
  }

  lemma FactsAre(cs: C.State, f: Fact)
    ensures f in Facts(cs) <==> Has(cs, f)
  {
  }

  /** The record that established a fact. */
  function RecordFor(cs: C.State, f: Fact): Record {
    if !Has(cs, f) then Record(0, "", Unknown)
    else
      match f
      case QueueFact(q) => cs.queues[q]
      case PolicyFact(q, s) => cs.subs[q][s]
      case MessageFact(q, id) => cs.msgs[id]
      case AckFact(q, id, s) => cs.acks[id][s]
  }

  function Emit(cs: C.State, order: seq<Fact>): seq<Record> {
    seq(|order|, i requires 0 <= i < |order| => RecordFor(cs, order[i]))
  }

  function Members(order: seq<Fact>): set<Fact> {
    set f | f in order
  }

  ghost predicate Distinct(order: seq<Fact>) {
    forall i, j :: 0 <= i < j < |order| ==> order[i] != order[j]
  }

  ghost predicate Grouped(order: seq<Fact>) {
    forall i, j :: 0 <= i < j < |order| ==> Group(order[i]) <= Group(order[j])
  }

  /** Any order in which `compacted()` may emit the facts of `cs`. */
  ghost predicate IsOrder(cs: C.State, order: seq<Fact>) {
    Members(order) == Facts(cs) && Distinct(order) && Grouped(order)
  }

  // ---- Partial rebuilds ----

  function AcksIn(cs: C.State, id: string, S: set<Fact>): map<string, Record> {
    map s | s in C.AcksOf(cs, id) && AckFact(C.AcksOf(cs, id)[s].queueName, id, s) in S :: C.AcksOf(cs, id)[s]
  }

  function SubsIn(cs: C.State, q: string, S: set<Fact>): map<string, Record>
    requires q in cs.subs
  {
    map s | s in cs.subs[q] && PolicyFact(q, s) in S :: cs.subs[q][s]
  }

  function LeftIn(cs: C.State, id: string, S: set<Fact>): set<string>
    requires id in cs.msgs
  {
    (if cs.msgs[id].op.Enqueue? then cs.msgs[id].op.subList.Keys else {}) - AcksIn(cs, id, S).Keys
  }

  function QueuesIn(cs: C.State, S: set<Fact>): map<string, Record> {
    map q | q in cs.queues && QueueFact(q) in S :: cs.queues[q]
  }

  function AllSubsIn(cs: C.State, S: set<Fact>): map<string, map<string, Record>> {
    map q | q in cs.subs && QueueFact(q) in S :: SubsIn(cs, q, S)
  }

  function MsgsIn(cs: C.State, S: set<Fact>): map<string, Record> {
    map id | id in cs.msgs && MessageFact(cs.msgs[id].queueName, id) in S :: cs.msgs[id]
  }

  function AllLeftIn(cs: C.State, S: set<Fact>): map<string, set<string>> {
    map id | id in cs.msgs && MessageFact(cs.msgs[id].queueName, id) in S :: LeftIn(cs, id, S)
  }

  function AllAcksIn(cs: C.State, S: set<Fact>): map<string, map<string, Record>> {
    map id | id in cs.acks && AcksIn(cs, id, S) != map[] :: AcksIn(cs, id, S)
  }

  /** The part of `cs` that the facts in `S` establish. */
  function Restrict(cs: C.State, S: set<Fact>): C.State {
    C.State(QueuesIn(cs, S), AllSubsIn(cs, S), MsgsIn(cs, S), AllLeftIn(cs, S), AllAcksIn(cs, S))
  }

  ghost predicate Needs(S: set<Fact>, f: Fact) {
    match f
    case QueueFact(_) => true
    case PolicyFact(q, _) => QueueFact(q) in S
    case MessageFact(q, _) => QueueFact(q) in S
    case AckFact(q, id, _) => MessageFact(q, id) in S
  }

  /** `S` is a part of `cs` that holds what each of its facts builds on. */
  ghost predicate Part(cs: C.State, S: set<Fact>) {
    forall f :: f in S ==> Has(cs, f) && Needs(S, f)
  }

  lemma CatalogAlone(cs: C.State, S: set<Fact>, f: Fact)
    requires f.MessageFact? || f.AckFact?
    ensures QueuesIn(cs, S + {f}) == QueuesIn(cs, S) && AllSubsIn(cs, S + {f}) == AllSubsIn(cs, S)
  {
    forall q | q in cs.subs ensures SubsIn(cs, q, S + {f}) == SubsIn(cs, q, S) {}
  }

  lemma AcksAlone(cs: C.State, S: set<Fact>, f: Fact, id: string)
    requires !(f.AckFact? && f.id == id)
    ensures AcksIn(cs, id, S + {f}) == AcksIn(cs, id, S)
  {
  }

  lemma AllAcksAlone(cs: C.State, S: set<Fact>, f: Fact)
    requires !f.AckFact?
    ensures AllAcksIn(cs, S + {f}) == AllAcksIn(cs, S)
  {
    forall id | id in cs.acks ensures AcksIn(cs, id, S + {f}) == AcksIn(cs, id, S) { AcksAlone(cs, S, f, id); }
  }

  lemma MessagesAlone(cs: C.State, S: set<Fact>, f: Fact)
    requires f.QueueFact? || f.PolicyFact?
    ensures MsgsIn(cs, S + {f}) == MsgsIn(cs, S) && AllLeftIn(cs, S + {f}) == AllLeftIn(cs, S)
  {
    forall id | id in cs.msgs ensures LeftIn(cs, id, S + {f}) == LeftIn(cs, id, S) { AcksAlone(cs, S, f, id); }
  }

  lemma AddQueue(cs: C.State, S: set<Fact>, f: Fact)
    requires C.Inv(cs) && Part(cs, S) && f !in S && Has(cs, f) && f.QueueFact?
    ensures C.Step(Restrict(cs, S), RecordFor(cs, f)) == Restrict(cs, S + {f})
  {
    var q := f.queue;
    assert C.IsCreate(cs.queues[q], q);
    MessagesAlone(cs, S, f);
    AllAcksAlone(cs, S, f);
    assert QueuesIn(cs, S + {f}) == QueuesIn(cs, S)[q := cs.queues[q]];
    AddQueueSubs(cs, S, f);
  }

  lemma AddQueueSubs(cs: C.State, S: set<Fact>, f: Fact)
    requires C.CatalogInv(cs) && Part(cs, S) && f !in S && Has(cs, f) && f.QueueFact?
    ensures AllSubsIn(cs, S + {f}) == AllSubsIn(cs, S)[f.queue := map[]]
  {
    forall q | q in cs.subs
      ensures SubsIn(cs, q, S + {f}) == if q == f.queue then map[] else SubsIn(cs, q, S)
    {
      SubsOfQueue(cs, S, f, q);
    }
    hide SubsIn, Part, C.PoliciesInv, C.IsCreate;
  }

  lemma SubsOfQueue(cs: C.State, S: set<Fact>, f: Fact, q: string)
    requires Part(cs, S) && f !in S && f.QueueFact? && q in cs.subs
    ensures SubsIn(cs, q, S + {f}) == if q == f.queue then map[] else SubsIn(cs, q, S)
  {
    if q == f.queue {
      forall s | s in cs.subs[q] ensures PolicyFact(q, s) !in S {
        assert PolicyFact(q, s) in S ==> Needs(S, PolicyFact(q, s));
      }
    }
  }

  lemma AddPolicySubs(cs: C.State, S: set<Fact>, f: Fact)
    requires Has(cs, f) && f.PolicyFact? && QueueFact(f.queue) in S
    ensures
      AllSubsIn(cs, S + {f}) ==
      AllSubsIn(cs, S)[f.queue := SubsIn(cs, f.queue, S)[f.sub := cs.subs[f.queue][f.sub]]]
  {
    forall q | q in cs.subs && q != f.queue ensures SubsIn(cs, q, S + {f}) == SubsIn(cs, q, S) {}
    assert SubsIn(cs, f.queue, S + {f}) == SubsIn(cs, f.queue, S)[f.sub := cs.subs[f.queue][f.sub]];
  }

  lemma AddPolicy(cs: C.State, S: set<Fact>, f: Fact)
    requires C.Inv(cs) && Part(cs, S) && f !in S && Has(cs, f) && f.PolicyFact? && Needs(S, f)
    ensures C.Step(Restrict(cs, S), RecordFor(cs, f)) == Restrict(cs, S + {f})
  {
    var q, s := f.queue, f.sub;
    assert C.PoliciesInv(cs.subs[q], q) && C.IsPolicy(cs.subs[q][s], q, s);
    MessagesAlone(cs, S, f);
    AllAcksAlone(cs, S, f);
    assert QueuesIn(cs, S + {f}) == QueuesIn(cs, S);
    AddPolicySubs(cs, S, f);
  }

  /** Acks come after their message, so before it there are none. */
  lemma NoAcksYet(cs: C.State, S: set<Fact>, f: Fact)
    requires C.Inv(cs) && Part(cs, S) && f !in S && Has(cs, f) && f.MessageFact?
    ensures AcksIn(cs, f.id, S) == map[]
  {
    forall s | s in C.AcksOf(cs, f.id) ensures AckFact(C.AcksOf(cs, f.id)[s].queueName, f.id, s) !in S {
      var g := AckFact(C.AcksOf(cs, f.id)[s].queueName, f.id, s);
      assert C.AcksInv(cs, f.id);
      assert g in S ==> Needs(S, g);
    }
  }

  lemma AddMessageLeft(cs: C.State, S: set<Fact>, f: Fact)
    requires Has(cs, f) && f.MessageFact?
    ensures MsgsIn(cs, S + {f}) == MsgsIn(cs, S)[f.id := cs.msgs[f.id]]
    ensures AllLeftIn(cs, S + {f}) == AllLeftIn(cs, S)[f.id := LeftIn(cs, f.id, S + {f})]
  {
    forall i | i in cs.msgs ensures LeftIn(cs, i, S + {f}) == LeftIn(cs, i, S) { AcksAlone(cs, S, f, i); }
  }

  lemma AddMessageAlone(cs: C.State, S: set<Fact>, f: Fact)
    requires C.Inv(cs) && Part(cs, S) && f !in S && Has(cs, f) && f.MessageFact?
    ensures
      var r := cs.msgs[f.id];
      r.op.Enqueue? && r.op.subList != map[] && LeftIn(cs, f.id, S + {f}) == C.SubNames(r.op.subList)
  {
    hide C.CatalogInv;
    NoAcksYet(cs, S, f);
    AcksAlone(cs, S, f, f.id);
    assert C.MessageInv(cs, f.id);
    assert C.SubNames(cs.msgs[f.id].op.subList) == cs.msgs[f.id].op.subList.Keys;
  }

  lemma AddMessage(cs: C.State, S: set<Fact>, f: Fact)
    requires C.Inv(cs) && Part(cs, S) && f !in S && Has(cs, f) && f.MessageFact? && Needs(S, f)
    ensures C.Step(Restrict(cs, S), RecordFor(cs, f)) == Restrict(cs, S + {f})
  {
    AddMessageAlone(cs, S, f);
    assert QueueFact(f.queue) in S && f.queue in cs.queues by { assert C.MessageInv(cs, f.id); }
    assert f.queue in QueuesIn(cs, S);
    hide C.Inv, Part, LeftIn, C.SubNames, MsgsIn, AllLeftIn, AllAcksIn, AllSubsIn, QueuesIn;
    AddMessageLeft(cs, S, f);
    CatalogAlone(cs, S, f);
    AllAcksAlone(cs, S, f);
  }

  lemma AddOneAck(cs: C.State, S: set<Fact>, f: Fact)
    requires Has(cs, f) && f.AckFact?
    ensures AcksIn(cs, f.id, S + {f}) == AcksIn(cs, f.id, S)[f.sub := cs.acks[f.id][f.sub]]
  {
  }

  lemma AcksOfRestrict(cs: C.State, S: set<Fact>, id: string)
    ensures C.AcksOf(Restrict(cs, S), id) == AcksIn(cs, id, S)
  {
    if id !in cs.acks { assert AcksIn(cs, id, S) == map[]; }
  }

  lemma AddAckAcks(cs: C.State, S: set<Fact>, f: Fact)
    requires Has(cs, f) && f.AckFact?
    ensures AllAcksIn(cs, S + {f}) == AllAcksIn(cs, S)[f.id := AcksIn(cs, f.id, S + {f})]
  {
    hide AcksIn;
    AddOneAck(cs, S, f);
    assert f.sub in AcksIn(cs, f.id, S + {f});
    forall id | id in cs.acks && id != f.id ensures AcksIn(cs, id, S + {f}) == AcksIn(cs, id, S) {
      AcksAlone(cs, S, f, id);
    }
  }

  lemma AckLeavesSome(cs: C.State, S: set<Fact>, f: Fact)
    requires C.Inv(cs) && Has(cs, f) && f.AckFact? && f.id in cs.msgs
    ensures LeftIn(cs, f.id, S + {f}) == LeftIn(cs, f.id, S) - {f.sub}
    ensures LeftIn(cs, f.id, S) - {f.sub} != {}
  {
    hide C.CatalogInv;
    AddOneAck(cs, S, f);
    assert C.MessageInv(cs, f.id);
    var s :| s in cs.remaining[f.id];
    assert s !in C.AcksOf(cs, f.id);
    assert s in LeftIn(cs, f.id, S) - {f.sub};
  }

  lemma AddAckLeft(cs: C.State, S: set<Fact>, f: Fact)
    requires Has(cs, f) && f.AckFact? && MessageFact(f.queue, f.id) in S
    requires f.id in cs.msgs && cs.msgs[f.id].queueName == f.queue
    ensures MsgsIn(cs, S + {f}) == MsgsIn(cs, S)
    ensures AllLeftIn(cs, S + {f}) == AllLeftIn(cs, S)[f.id := LeftIn(cs, f.id, S + {f})]
  {
    forall id | id in cs.msgs && id != f.id ensures LeftIn(cs, id, S + {f}) == LeftIn(cs, id, S) {
      AcksAlone(cs, S, f, id);
    }
  }

  lemma AddAck(cs: C.State, S: set<Fact>, f: Fact)
    requires C.Inv(cs) && Part(cs, S) && f !in S && Has(cs, f) && f.AckFact? && Needs(S, f)
    ensures C.Step(Restrict(cs, S), RecordFor(cs, f)) == Restrict(cs, S + {f})
  {
    assert Has(cs, MessageFact(f.queue, f.id));
    assert C.AcksInv(cs, f.id);
    CatalogAlone(cs, S, f);
    AddOneAck(cs, S, f);
    AcksOfRestrict(cs, S, f.id);
    AddAckAcks(cs, S, f);
    AddAckLeft(cs, S, f);
    AckLeavesSome(cs, S, f);
  }

  /** Emitting one more fact adds exactly that fact to the rebuilt state. */
  lemma AddFact(cs: C.State, S: set<Fact>, f: Fact)
    requires C.Inv(cs) && Part(cs, S) && f !in S && Has(cs, f) && Needs(S, f)
    ensures C.Step(Restrict(cs, S), RecordFor(cs, f)) == Restrict(cs, S + {f})
  {
    match f {
      case QueueFact(_) => AddQueue(cs, S, f);
      case PolicyFact(_, _) => AddPolicy(cs, S, f);
      case MessageFact(_, _) => AddMessage(cs, S, f);
      case AckFact(_, _, _) => AddAck(cs, S, f);
    }
  }

  /** Each emitted record is legal where it stands. */
  lemma FactIsLegal(cs: C.State, S: set<Fact>, f: Fact)
    requires C.Inv(cs) && Part(cs, S) && f !in S && Has(cs, f) && Needs(S, f)
    ensures LS.Legal(C.LiveOf(Restrict(cs, S)), RecordFor(cs, f))
  {
    match f {
      case QueueFact(q) =>
        assert C.IsCreate(cs.queues[q], q);
      case PolicyFact(q, s) =>
        assert C.PoliciesInv(cs.subs[q], q) && C.IsPolicy(cs.subs[q][s], q, s);
      case MessageFact(q, id) =>
        assert C.MessageInv(cs, id);
        C.PendingDomain(Restrict(cs, S));
      case AckFact(q, id, s) =>
        assert Has(cs, MessageFact(q, id));
        assert C.AcksInv(cs, id);
        C.PendingAt(Restrict(cs, S), LS.Key(q, id));
    }
  }

  lemma RestrictAllCatalog(cs: C.State)
    requires cs.queues.Keys == cs.subs.Keys
    ensures QueuesIn(cs, Facts(cs)) == cs.queues && AllSubsIn(cs, Facts(cs)) == cs.subs
  {
    forall q | q in cs.subs ensures SubsIn(cs, q, Facts(cs)) == cs.subs[q] {}
    assert forall q :: q in cs.queues ==> QueueFact(q) in Facts(cs);
  }

  lemma AcksInAll(cs: C.State, id: string)
    ensures AcksIn(cs, id, Facts(cs)) == C.AcksOf(cs, id)
  {
    forall s | s in C.AcksOf(cs, id) ensures AckFact(C.AcksOf(cs, id)[s].queueName, id, s) in Facts(cs) {
      FactsAre(cs, AckFact(C.AcksOf(cs, id)[s].queueName, id, s));
    }
  }

  lemma HeldAcksIn(cs: C.State, id: string)
    requires C.Inv(cs) && id in cs.acks
    ensures AcksIn(cs, id, Facts(cs)) == cs.acks[id] && cs.acks[id] != map[]
  {
    assert C.AcksInv(cs, id);
    AcksInAll(cs, id);
  }

  lemma RestrictAllAcks(cs: C.State)
    requires C.Inv(cs)
    ensures AllAcksIn(cs, Facts(cs)) == cs.acks
  {
    hide C.Inv, Facts, AcksIn;
    forall id | id in cs.acks ensures AcksIn(cs, id, Facts(cs)) == cs.acks[id] && cs.acks[id] != map[] {
      HeldAcksIn(cs, id);
    }
  }

  lemma LeftInAll(cs: C.State, id: string)
    requires C.Inv(cs) && id in cs.msgs
    ensures LeftIn(cs, id, Facts(cs)) == cs.remaining[id]
  {
    hide Facts, AcksIn, C.CatalogInv;
    assert C.MessageInv(cs, id);
    AcksInAll(cs, id);
  }

  lemma RestrictAllMessages(cs: C.State)
    requires C.Inv(cs)
    ensures MsgsIn(cs, Facts(cs)) == cs.msgs && AllLeftIn(cs, Facts(cs)) == cs.remaining
  {
    hide LeftIn, Facts, C.CatalogInv, C.MessageInv;
    forall id | id in cs.msgs
      ensures LeftIn(cs, id, Facts(cs)) == cs.remaining[id] && MessageFact(cs.msgs[id].queueName, id) in Facts(cs)
    {
      LeftInAll(cs, id);
      FactsAre(cs, MessageFact(cs.msgs[id].queueName, id));
    }
  }

  lemma RestrictAll(cs: C.State)
    requires C.Inv(cs)
    ensures Restrict(cs, Facts(cs)) == cs
  {
    RestrictAllCatalog(cs);
    RestrictAllMessages(cs);
    RestrictAllAcks(cs);
  }

  lemma RestrictNone(cs: C.State)
    ensures Restrict(cs, {}) == C.INIT
  {
    assert forall id :: id in cs.acks ==> AcksIn(cs, id, {}) == map[];
  }

  // ---- The whole output ----

  /** Facts of `cs`, none twice, each after what it builds on. */
  ghost predicate Buildable(cs: C.State, order: seq<Fact>) {
    && Distinct(order)
    && forall i :: 0 <= i < |order| ==> Has(cs, order[i]) && Needs(Members(order[..i]), order[i])
  }

  lemma OrderIsBuildable(cs: C.State, order: seq<Fact>)
    requires C.Inv(cs) && IsOrder(cs, order)
    ensures Buildable(cs, order)
  {
    forall i | 0 <= i < |order| ensures Has(cs, order[i]) && Needs(Members(order[..i]), order[i]) {
      FactsAre(cs, order[i]);
      assert order[i] in Members(order);
      NeedsPrecede(cs, order, i);
    }
  }

  lemma NeedsPrecede(cs: C.State, order: seq<Fact>, i: nat)
    requires C.Inv(cs) && IsOrder(cs, order) && i < |order| && Has(cs, order[i])
    ensures Needs(Members(order[..i]), order[i])
  {
    var f := order[i];
    if !f.QueueFact? {
      var g := if f.AckFact? then MessageFact(f.queue, f.id) else QueueFact(f.queue);
      assert Has(cs, g) by {
        if f.AckFact? { assert C.AcksInv(cs, f.id); }
        if f.MessageFact? { assert C.MessageInv(cs, f.id); }
      }
      FactsAre(cs, g);
      assert g in Members(order);
      var j :| 0 <= j < |order| && order[j] == g;
      assert Group(g) < Group(f);
      assert j < i;
    }
  }

  lemma PrefixIsPart(cs: C.State, order: seq<Fact>, k: nat)
    requires Buildable(cs, order) && k <= |order|
    ensures Part(cs, Members(order[..k]))
    ensures k < |order| ==> order[k] !in Members(order[..k])
  {
    forall i | 0 <= i < k ensures Needs(Members(order[..k]), order[i]) {
      assert order[..i] <= order[..k];
    }
  }

  lemma EmitSnoc(cs: C.State, order: seq<Fact>, k: nat)
    requires 0 < k <= |order|
    ensures Emit(cs, order[..k]) == Emit(cs, order[..k - 1]) + [RecordFor(cs, order[k - 1])]
    ensures Members(order[..k]) == Members(order[..k - 1]) + {order[k - 1]}
  {
  }

  /** Folding the records of a buildable order rebuilds that part of `cs`, and they are a legal log. */
  lemma {:induction false} PrefixRebuilds(cs: C.State, order: seq<Fact>, k: nat)
    requires C.Inv(cs) && Buildable(cs, order) && k <= |order|
    ensures LS.LegalLog(Emit(cs, order[..k]))
    ensures C.Fold(C.INIT, Emit(cs, order[..k])) == Restrict(cs, Members(order[..k]))
    decreases k
  {
    hide C.Inv, Restrict, RecordFor, Has, Needs, C.Step, LS.Step, LS.Legal;
    if k == 0 {
      RestrictNone(cs);
      assert Members(order[..k]) == {};
    } else {
      var S, f := Members(order[..k - 1]), order[k - 1];
      var out, r := Emit(cs, order[..k - 1]), RecordFor(cs, f);
      PrefixRebuilds(cs, order, k - 1);
      PrefixIsPart(cs, order, k - 1);
      EmitSnoc(cs, order, k);
      AddFact(cs, S, f);
      C.FoldSnoc(C.INIT, out, r);
      assert LS.Legal(LS.Run(LS.NOTHING, out), r) by {
        C.FoldOfLegal(out);
        FactIsLegal(cs, S, f);
      }
      LS.RunSnoc(LS.NOTHING, out, r);
    }
  }

  /** The fixpoint law: whatever order the maps are walked in, folding the
      output rebuilds the same compaction state, so its own facts are the same. */
  lemma EmissionRebuilds(cs: C.State, order: seq<Fact>)
    requires C.Inv(cs) && IsOrder(cs, order)
    ensures LS.LegalLog(Emit(cs, order))
    ensures C.Fold(C.INIT, Emit(cs, order)) == cs
    ensures LS.Run(LS.NOTHING, Emit(cs, order)) == C.LiveOf(cs)
  {
    OrderIsBuildable(cs, order);
    PrefixRebuilds(cs, order, |order|);
    assert order[..|order|] == order;
    RestrictAll(cs);
    hide C.Inv, C.Fold, C.LiveOf, Restrict, Emit, LS.LegalFrom, LS.Run;
    C.FoldOfLegal(Emit(cs, order));
  }
}
