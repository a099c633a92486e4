/**
  Checkpoint compaction: the state that CompactRecords folds a window of the
  log into, and the proof that it tracks the live machine on every served log.
 */
module Compaction {
  import opened Records
  import LS = LiveState

  /** compactionState: the record that established each live fact, and the
      subscribers each message still waits for. */
  datatype State = State(
    queues: map<string, Record>,
    subs: map<string, map<string, Record>>,
    msgs: map<string, Record>,
    remaining: map<string, set<string>>,
    acks: map<string, map<string, Record>>)

  const INIT := State(map[], map[], map[], map[], map[])

  function AcksOf(cs: State, id: string): map<string, Record> {
    if id in cs.acks then cs.acks[id] else map[]
  }

  function SubNames(subList: map<string, SubPolicy>): set<string> {
    set s | s in subList :: subList[s].subName
  }

  function AppliedEnqueue(cs: State, r: Record): State
    requires r.op.Enqueue?
  {
    if r.queueName !in cs.queues || r.op.subList == map[] then cs
    else cs.(msgs := cs.msgs[r.op.msgId := r], remaining := cs.remaining[r.op.msgId := SubNames(r.op.subList)])
  }

  function AppliedAck(cs: State, r: Record): State
    requires r.op.Ack?
  {
    var id := r.op.ackedId;
    var left := if id in cs.remaining then cs.remaining[id] - {r.op.subName} else {};
    if left == {} then cs.(remaining := cs.remaining - {id}, msgs := cs.msgs - {id}, acks := cs.acks - {id})
    else cs.(remaining := cs.remaining[id := left], acks := cs.acks[id := AcksOf(cs, id)[r.op.subName := r]])
  }

  function AppliedDeleteQueue(cs: State, q: string): State {
    var gone := set id | id in cs.msgs && cs.msgs[id].queueName == q;
    State(cs.queues - {q}, cs.subs - {q}, cs.msgs - gone, cs.remaining - gone, cs.acks - gone)
  }

  function Step(cs: State, r: Record): State {
    var q := r.queueName;
    match r.op
    case Enqueue(_, _, _) => AppliedEnqueue(cs, r)
    case Ack(_, _) => AppliedAck(cs, r)
    case CreateQueue => cs.(queues := cs.queues[q := r], subs := cs.subs[q := map[]])
    case DeleteQueue => AppliedDeleteQueue(cs, q)
    case UpdateSubPolicy(p) => if q !in cs.subs then cs else cs.(subs := cs.subs[q := cs.subs[q][p.subName := r]])
    case DeleteSubPolicy(p) => if q !in cs.subs then cs else cs.(subs := cs.subs[q := cs.subs[q] - {p.subName}])
    case _ => cs
  }

  function Fold(cs: State, recs: seq<Record>): State {
    if recs == [] then cs else Step(Fold(cs, recs[..|recs| - 1]), recs[|recs| - 1])
  }

  lemma FoldSnoc(cs: State, recs: seq<Record>, r: Record)
    ensures Fold(cs, recs + [r]) == Step(Fold(cs, recs), r)
  {
    assert (recs + [r])[..|recs|] == recs;
  }

  // ---- Invariant ----

  ghost predicate IsCreate(r: Record, q: string) {
    r.op.CreateQueue? && r.queueName == q
  }

  ghost predicate IsPolicy(r: Record, q: string, s: string) {
    r.op.UpdateSubPolicy? && r.queueName == q && r.op.policy.subName == s
  }

  ghost predicate IsMessage(r: Record, id: string) {
    r.op.Enqueue? && r.op.msgId == id && Keyed(r.op.subList)
  }

  ghost predicate IsAck(r: Record, q: string, id: string, s: string) {
    r.op == Ack(id, s) && r.queueName == q
  }

  ghost predicate PoliciesInv(recs: map<string, Record>, q: string) {
    forall s :: s in recs ==> IsPolicy(recs[s], q, s)
  }

  /** The catalog half: queues and policies are filed under their own names. */
  ghost predicate CatalogInv(cs: State) {
    && cs.queues.Keys == cs.subs.Keys
    && (forall q :: q in cs.queues ==> IsCreate(cs.queues[q], q))
    && (forall q :: q in cs.subs ==> PoliciesInv(cs.subs[q], q))
  }

  /** One message: on a live queue, waiting for exactly the snapshot minus the acks, and for someone. */
  ghost predicate MessageInv(cs: State, id: string)
    requires id in cs.msgs && id in cs.remaining
  {
    && IsMessage(cs.msgs[id], id)
    && cs.msgs[id].queueName in cs.queues
    && cs.remaining[id] == cs.msgs[id].op.subList.Keys - AcksOf(cs, id).Keys
    && cs.remaining[id] != {}
  }

  ghost predicate AcksInv(cs: State, id: string)
    requires id in cs.msgs && id in cs.acks
  {
    && cs.acks[id] != map[]
    && forall s :: s in cs.acks[id] ==> IsAck(cs.acks[id][s], cs.msgs[id].queueName, id, s)
  }

  ghost predicate Inv(cs: State) {
    && CatalogInv(cs)
    && cs.msgs.Keys == cs.remaining.Keys
    && cs.acks.Keys <= cs.msgs.Keys
    && (forall id :: id in cs.msgs ==> MessageInv(cs, id))
    && (forall id :: id in cs.acks ==> AcksInv(cs, id))
  }

  // ---- The live state a compaction state stands for ----

  function PolicyOf(r: Record): SubPolicy {
    if r.op.UpdateSubPolicy? then r.op.policy else SubPolicy("", "", 0)
  }

  function PoliciesOf(recs: map<string, Record>): map<string, SubPolicy> {
    map s | s in recs :: PolicyOf(recs[s])
  }

  function MessageOf(r: Record, acks: map<string, Record>): Message {
    if r.op.Enqueue? then Message(r.op.content, r.op.subList, r.op.subList.Keys * acks.Keys) else Message("", map[], {})
  }

  function CatalogOf(cs: State): map<string, map<string, SubPolicy>> {
    map q | q in cs.subs :: PoliciesOf(cs.subs[q])
  }

  function PendingKeys(cs: State): set<LS.Key> {
    set id | id in cs.msgs :: LS.Key(cs.msgs[id].queueName, id)
  }

  function PendingOf(cs: State): map<LS.Key, Message> {
    map k | k in PendingKeys(cs) :: MessageOf(cs.msgs[k.id], AcksOf(cs, k.id))
  }

  function LiveOf(cs: State): LS.Live {
    LS.Live(CatalogOf(cs), PendingOf(cs))
  }

  lemma PendingAt(cs: State, k: LS.Key)
    ensures k in PendingOf(cs) <==> k.id in cs.msgs && cs.msgs[k.id].queueName == k.queue
    ensures k in PendingOf(cs) ==> PendingOf(cs)[k] == MessageOf(cs.msgs[k.id], AcksOf(cs, k.id))
  {
  }

  // ---- The invariant is kept, whatever the live state ----

  /** A message that a step leaves alone keeps its part of the invariant. */
  lemma Frame(cs: State, cs': State, i: string)
    requires i in cs.msgs && i in cs.remaining && MessageInv(cs, i) && (i in cs.acks ==> AcksInv(cs, i))
    requires i in cs'.msgs && i in cs'.remaining && cs'.msgs[i] == cs.msgs[i] && cs'.remaining[i] == cs.remaining[i]
    requires (i in cs'.acks <==> i in cs.acks) && AcksOf(cs', i) == AcksOf(cs, i)
    requires cs.msgs[i].queueName in cs'.queues
    ensures MessageInv(cs', i)
    ensures i in cs'.acks ==> AcksInv(cs', i)
  {
  }

  lemma EnqueueKeepsOwn(cs: State, r: Record)
    requires r.op.Enqueue? && Keyed(r.op.subList) && r.op.msgId !in cs.acks && r.queueName in cs.queues
    requires r.op.subList != map[]
    ensures r.op.msgId in Step(cs, r).msgs && r.op.msgId in Step(cs, r).remaining && MessageInv(Step(cs, r), r.op.msgId)
  {
    assert SubNames(r.op.subList) == r.op.subList.Keys;
  }

  lemma EnqueueKeepsInv(cs: State, r: Record)
    requires Inv(cs) && r.op.Enqueue? && Keyed(r.op.subList) && r.op.msgId !in cs.msgs
    ensures Inv(Step(cs, r))
  {
    hide MessageInv, AcksInv, SubNames, IsCreate, PoliciesInv;
    if r.queueName in cs.queues && r.op.subList != map[] {
      var cs' := Step(cs, r);
      EnqueueKeepsOwn(cs, r);
      forall i | i in cs'.msgs && i != r.op.msgId ensures MessageInv(cs', i) && (i in cs'.acks ==> AcksInv(cs', i)) {
        QueueOf(cs, i);
        Frame(cs, cs', i);
      }
    }
  }

  lemma QueueOf(cs: State, i: string)
    requires Inv(cs) && i in cs.msgs
    ensures cs.msgs[i].queueName in cs.queues
  {
    hide CatalogInv;
    assert MessageInv(cs, i);
  }

  lemma AckKeepsInv(cs: State, r: Record)
    requires Inv(cs) && r.op.Ack? && r.op.ackedId in cs.msgs && cs.msgs[r.op.ackedId].queueName == r.queueName
    ensures Inv(AppliedAck(cs, r))
  {
    hide MessageInv, AcksInv, IsCreate, PoliciesInv;
    var id, cs' := r.op.ackedId, AppliedAck(cs, r);
    forall i | i in cs'.msgs && i != id ensures MessageInv(cs', i) && (i in cs'.acks ==> AcksInv(cs', i)) {
      QueueOf(cs, i);
      Frame(cs, cs', i);
    }
    if id in cs'.msgs {
      AckKeepsOwn(cs, r);
    }
  }

  lemma AckKeepsOwn(cs: State, r: Record)
    requires r.op.Ack? && r.op.ackedId in cs.msgs && cs.msgs[r.op.ackedId].queueName == r.queueName
    requires r.op.ackedId in cs.remaining && MessageInv(cs, r.op.ackedId)
    requires r.op.ackedId in cs.acks ==> AcksInv(cs, r.op.ackedId)
    requires r.op.ackedId in AppliedAck(cs, r).msgs
    ensures MessageInv(AppliedAck(cs, r), r.op.ackedId) && AcksInv(AppliedAck(cs, r), r.op.ackedId)
  {
    hide IsMessage;
    var id, s := r.op.ackedId, r.op.subName;
    var cs' := AppliedAck(cs, r);
    assert cs'.acks[id] == AcksOf(cs, id)[s := r];
    assert s in cs'.acks[id];
  }

  lemma DeleteKeepsOwn(cs: State, q: string, i: string)
    requires Inv(cs) && i in AppliedDeleteQueue(cs, q).msgs
    ensures i in AppliedDeleteQueue(cs, q).remaining && MessageInv(AppliedDeleteQueue(cs, q), i)
    ensures i in AppliedDeleteQueue(cs, q).acks ==> AcksInv(AppliedDeleteQueue(cs, q), i)
  {
    hide MessageInv, AcksInv, CatalogInv;
    QueueOf(cs, i);
    Frame(cs, AppliedDeleteQueue(cs, q), i);
  }

  lemma DeleteKeepsInv(cs: State, q: string)
    requires Inv(cs)
    ensures Inv(AppliedDeleteQueue(cs, q))
  {
    hide MessageInv, AcksInv, IsCreate, PoliciesInv;
    var cs' := AppliedDeleteQueue(cs, q);
    assert CatalogInv(cs');
    forall i | i in cs'.msgs ensures MessageInv(cs', i) && (i in cs'.acks ==> AcksInv(cs', i)) {
      DeleteKeepsOwn(cs, q, i);
    }
  }

  lemma CatalogKeepsCatalogInv(cs: State, r: Record)
    requires CatalogInv(cs) && (r.op.CreateQueue? || r.op.UpdateSubPolicy? || r.op.DeleteSubPolicy?)
    ensures CatalogInv(Step(cs, r)) && cs.queues.Keys <= Step(cs, r).queues.Keys
  {
    var cs', q := Step(cs, r), r.queueName;
    assert q in cs.subs ==> PoliciesInv(cs.subs[q], q);
    assert q in cs'.subs ==> PoliciesInv(cs'.subs[q], q);
    hide PoliciesInv;
  }

  lemma CatalogKeepsInv(cs: State, cs': State)
    requires Inv(cs) && CatalogInv(cs') && cs.queues.Keys <= cs'.queues.Keys
    requires cs'.msgs == cs.msgs && cs'.remaining == cs.remaining && cs'.acks == cs.acks
    ensures Inv(cs')
  {
    hide MessageInv, AcksInv, CatalogInv;
    forall i | i in cs'.msgs ensures MessageInv(cs', i) && (i in cs'.acks ==> AcksInv(cs', i)) {
      QueueOf(cs, i);
      Frame(cs, cs', i);
    }
  }

  // ---- Each step tracks the live machine ----

  lemma PendingDomain(cs: State)
    ensures forall k :: k in PendingOf(cs) <==> k.id in cs.msgs && cs.msgs[k.id].queueName == k.queue
    ensures forall k :: k in PendingOf(cs) ==> PendingOf(cs)[k] == MessageOf(cs.msgs[k.id], AcksOf(cs, k.id))
  {
    forall k: LS.Key
      ensures k in PendingOf(cs) <==> k.id in cs.msgs && cs.msgs[k.id].queueName == k.queue
      ensures k in PendingOf(cs) ==> PendingOf(cs)[k] == MessageOf(cs.msgs[k.id], AcksOf(cs, k.id))
    {
      PendingAt(cs, k);
    }
  }

  /** `p` is what is pending in `cs`: the pointwise form of p == PendingOf(cs). */
  lemma PendingIs(cs: State, p: map<LS.Key, Message>)
    requires forall k :: k in p <==> k.id in cs.msgs && cs.msgs[k.id].queueName == k.queue
    requires forall k :: k in p ==> p[k] == MessageOf(cs.msgs[k.id], AcksOf(cs, k.id))
    ensures PendingOf(cs) == p
  {
    PendingDomain(cs);
  }

  lemma PendingWithMessage(cs: State, cs': State, k: LS.Key, r: Record)
    requires k.id !in cs.msgs && cs'.msgs == cs.msgs[k.id := r] && r.queueName == k.queue && cs'.acks == cs.acks
    ensures PendingOf(cs') == PendingOf(cs)[k := MessageOf(r, AcksOf(cs', k.id))]
  {
    PendingDomain(cs);
    hide PendingOf, MessageOf;
    PendingIs(cs', PendingOf(cs)[k := MessageOf(r, AcksOf(cs', k.id))]);
  }

  lemma EnqueuePending(cs: State, r: Record)
    requires Inv(cs) && r.op.Enqueue? && r.op.msgId !in cs.msgs && r.queueName in cs.queues && r.op.subList != map[]
    ensures PendingOf(Step(cs, r)) ==
            PendingOf(cs)[LS.Key(r.queueName, r.op.msgId) := Message(r.op.content, r.op.subList, {})]
  {
    assert r.op.msgId !in cs.acks;
    assert MessageOf(r, map[]) == Message(r.op.content, r.op.subList, {});
    hide Inv, PendingOf, SubNames;
    PendingWithMessage(cs, Step(cs, r), LS.Key(r.queueName, r.op.msgId), r);
  }

  /** The subscribers left after an ack are the ones the settled message still waits for. */
  lemma AckLeaves(cs: State, id: string, s: string)
    requires Inv(cs) && id in cs.msgs
    ensures
      var m := MessageOf(cs.msgs[id], AcksOf(cs, id));
      m.Settle(s).Unsettled() <==> cs.remaining[id] - {s} != {}
  {
    var m := MessageOf(cs.msgs[id], AcksOf(cs, id));
    assert MessageInv(cs, id);
    assert cs.remaining[id] - {s} == m.subList.Keys - m.Settle(s).acked;
  }

  lemma AckSettles(cs: State, r: Record, id: string, s: string)
    requires id in cs.msgs && cs.msgs[id].op.Enqueue?
    ensures MessageOf(cs.msgs[id], AcksOf(cs, id)).Settle(s) == MessageOf(cs.msgs[id], AcksOf(cs, id)[s := r])
  {
  }

  lemma AppliedAckElsewhere(cs: State, r: Record, i: string)
    requires r.op.Ack? && i != r.op.ackedId
    ensures AcksOf(AppliedAck(cs, r), i) == AcksOf(cs, i)
  {
  }

  lemma AckPending(cs: State, r: Record)
    requires Inv(cs) && r.op.Ack? && r.op.ackedId in cs.msgs && cs.msgs[r.op.ackedId].queueName == r.queueName
    ensures
      var k := LS.Key(r.queueName, r.op.ackedId);
      && k in PendingOf(cs)
      && var m := PendingOf(cs)[k].Settle(r.op.subName);
         PendingOf(AppliedAck(cs, r)) == if m.Unsettled() then PendingOf(cs)[k := m] else PendingOf(cs) - {k}
  {
    var id, s := r.op.ackedId, r.op.subName;
    var k := LS.Key(r.queueName, id);
    PendingAt(cs, k);
    AckLeaves(cs, id, s);
    var m, cs' := PendingOf(cs)[k].Settle(s), AppliedAck(cs, r);
    forall i | i != id ensures AcksOf(cs', i) == AcksOf(cs, i) {
      AppliedAckElsewhere(cs, r, i);
    }
    if m.Unsettled() {
      assert m == MessageOf(cs'.msgs[id], AcksOf(cs', id)) by {
        assert MessageInv(cs, id);
        AckSettles(cs, r, id, s);
      }
      PendingWithAcks(cs, cs', k, m);
    } else {
      PendingWithout(cs, cs', k);
    }
  }

  lemma PendingWithAcks(cs: State, cs': State, k: LS.Key, m: Message)
    requires k in PendingOf(cs) && cs'.msgs == cs.msgs
    requires m == MessageOf(cs'.msgs[k.id], AcksOf(cs', k.id))
    requires forall i :: i in cs.msgs && i != k.id ==> AcksOf(cs', i) == AcksOf(cs, i)
    ensures PendingOf(cs') == PendingOf(cs)[k := m]
  {
    PendingDomain(cs);
    PendingIs(cs', PendingOf(cs)[k := m]);
  }

  lemma PendingWithout(cs: State, cs': State, k: LS.Key)
    requires k in PendingOf(cs) && cs'.msgs == cs.msgs - {k.id}
    requires forall i :: i in cs.msgs && i != k.id ==> AcksOf(cs', i) == AcksOf(cs, i)
    ensures PendingOf(cs') == PendingOf(cs) - {k}
  {
    PendingDomain(cs);
    PendingIs(cs', PendingOf(cs) - {k});
  }

  lemma DeletePending(cs: State, r: Record)
    requires Inv(cs) && r.op.DeleteQueue?
    ensures PendingOf(Step(cs, r)) == LS.DropQueue(PendingOf(cs), r.queueName)
  {
    hide Inv, PendingOf, MessageOf;
    PendingDomain(cs);
    PendingIs(Step(cs, r), LS.DropQueue(PendingOf(cs), r.queueName));
  }

  lemma PoliciesOfMoves(recs: map<string, Record>, s: string, r: Record)
    ensures PoliciesOf(recs[s := r]) == PoliciesOf(recs)[s := PolicyOf(r)]
    ensures PoliciesOf(recs - {s}) == PoliciesOf(recs) - {s}
  {
  }

  lemma CatalogOfMoves(cs: State, q: string, recs: map<string, Record>)
    ensures CatalogOf(cs.(subs := cs.subs[q := recs])) == CatalogOf(cs)[q := PoliciesOf(recs)]
    ensures CatalogOf(cs.(subs := cs.subs - {q})) == CatalogOf(cs) - {q}
  {
  }

  lemma CreateMoves(cs: State, r: Record)
    requires r.op.CreateQueue?
    ensures CatalogOf(Step(cs, r)) == CatalogOf(cs)[r.queueName := map[]]
  {
    assert PoliciesOf(map[]) == map[];
    CatalogOfMoves(cs, r.queueName, map[]);
    hide PoliciesOf;
    assert Step(cs, r).subs == cs.subs[r.queueName := map[]];
  }

  lemma PolicyMoves(cs: State, r: Record)
    requires r.queueName in cs.subs && (r.op.UpdateSubPolicy? || r.op.DeleteSubPolicy?)
    ensures
      var q := r.queueName;
      var mine := CatalogOf(cs)[q];
      CatalogOf(Step(cs, r)) ==
      CatalogOf(cs)[q := if r.op.UpdateSubPolicy? then mine[r.op.policy.subName := r.op.policy]
                         else mine - {r.op.removed.subName}]
  {
    var q := r.queueName;
    var sub := if r.op.UpdateSubPolicy? then r.op.policy.subName else r.op.removed.subName;
    PoliciesOfMoves(cs.subs[q], sub, r);
    CatalogOfMoves(cs, q, if r.op.UpdateSubPolicy? then cs.subs[q][sub := r] else cs.subs[q] - {sub});
    hide PoliciesOf;
  }

  lemma CatalogMoves(cs: State, r: Record)
    requires r.op.CreateQueue? || (r.queueName in cs.subs && (r.op.UpdateSubPolicy? || r.op.DeleteSubPolicy?))
    ensures CatalogOf(Step(cs, r)) == LS.Step(LiveOf(cs), r).catalog
  {
    assert CatalogOf(cs).Keys == cs.subs.Keys;
    hide CatalogOf, PendingOf, Step;
    if r.op.CreateQueue? { CreateMoves(cs, r); } else { PolicyMoves(cs, r); }
  }

  lemma SamePending(cs: State, cs': State)
    requires cs'.msgs == cs.msgs && cs'.acks == cs.acks
    ensures PendingOf(cs') == PendingOf(cs)
  {
    PendingDomain(cs);
    PendingIs(cs', PendingOf(cs));
  }

  /** A catalog record touches the catalog only, on both sides. */
  lemma CatalogOnly(cs: State, r: Record)
    requires r.op.CreateQueue? || r.op.UpdateSubPolicy? || r.op.DeleteSubPolicy?
    ensures Step(cs, r).msgs == cs.msgs && Step(cs, r).remaining == cs.remaining && Step(cs, r).acks == cs.acks
    ensures LS.Step(LiveOf(cs), r).pending == PendingOf(cs)
    ensures r.op.CreateQueue? || (LS.Legal(LiveOf(cs), r) ==> r.queueName in cs.subs)
  {
    hide PoliciesOf, PendingOf;
  }

  lemma CatalogTracks(cs: State, r: Record)
    requires Inv(cs) && LS.Legal(LiveOf(cs), r)
    requires r.op.CreateQueue? || r.op.UpdateSubPolicy? || r.op.DeleteSubPolicy?
    ensures Inv(Step(cs, r)) && LiveOf(Step(cs, r)) == LS.Step(LiveOf(cs), r)
  {
    assert CatalogInv(cs);
    hide Inv, CatalogInv, Step, PendingOf, CatalogOf, LS.Step, LS.Legal;
    CatalogOnly(cs, r);
    CatalogKeepsCatalogInv(cs, r);
    CatalogKeepsInv(cs, Step(cs, r));
    CatalogMoves(cs, r);
    SamePending(cs, Step(cs, r));
  }

  lemma EnqueueTracks(cs: State, r: Record)
    requires Inv(cs) && r.op.Enqueue? && LS.Legal(LiveOf(cs), r)
    ensures Inv(Step(cs, r)) && LiveOf(Step(cs, r)) == LS.Step(LiveOf(cs), r)
  {
    PendingDomain(cs);
    assert forall id :: id in cs.msgs ==> LS.Key(cs.msgs[id].queueName, id) in PendingOf(cs);
    EnqueueKeepsInv(cs, r);
    if r.op.subList != map[] {
      EnqueuePending(cs, r);
    }
  }

  /** An ack of a message that nobody waits for leaves no trace. */
  lemma LateAckIsDropped(cs: State, r: Record)
    requires Inv(cs) && r.op.Ack? && r.op.ackedId !in cs.msgs
    ensures Step(cs, r) == cs
  {
    hide MessageInv, AcksInv, CatalogInv;
    var id := r.op.ackedId;
    assert id !in cs.remaining && id !in cs.acks;
    assert cs.remaining - {id} == cs.remaining && cs.msgs - {id} == cs.msgs && cs.acks - {id} == cs.acks;
  }

  /** A served ack is for a message held under its queue, or for one not held. */
  lemma AckTarget(cs: State, r: Record)
    requires r.op.Ack? && LS.Served(LiveOf(cs), r)
    ensures r.op.ackedId in cs.msgs ==> cs.msgs[r.op.ackedId].queueName == r.queueName
    ensures LS.Key(r.queueName, r.op.ackedId) in LiveOf(cs).pending <==> r.op.ackedId in cs.msgs
  {
    PendingAt(cs, LS.Key(r.queueName, r.op.ackedId));
    if r.op.ackedId in cs.msgs {
      PendingAt(cs, LS.Key(cs.msgs[r.op.ackedId].queueName, r.op.ackedId));
    }
  }

  lemma AckTracks(cs: State, r: Record)
    requires Inv(cs) && r.op.Ack? && LS.Served(LiveOf(cs), r)
    ensures Inv(Step(cs, r)) && LiveOf(Step(cs, r)) == LS.Step(LiveOf(cs), r)
  {
    AckTarget(cs, r);
    hide Inv, PendingOf, CatalogOf, LS.Served;
    if r.op.ackedId in cs.msgs {
      AckKeepsInv(cs, r);
      AckPending(cs, r);
    } else {
      LateAckIsDropped(cs, r);
    }
  }

  lemma DeleteTracks(cs: State, r: Record)
    requires Inv(cs) && r.op.DeleteQueue?
    ensures Inv(Step(cs, r)) && LiveOf(Step(cs, r)) == LS.Step(LiveOf(cs), r)
  {
    DeleteKeepsInv(cs, r.queueName);
    DeletePending(cs, r);
    CatalogOfMoves(cs, r.queueName, map[]);
  }

  /** One served record moves the compaction state as it moves the live state. */
  lemma StepTracks(cs: State, r: Record)
    requires Inv(cs) && LS.Served(LiveOf(cs), r)
    ensures Inv(Step(cs, r)) && LiveOf(Step(cs, r)) == LS.Step(LiveOf(cs), r)
  {
    match r.op {
      case Enqueue(_, _, _) => EnqueueTracks(cs, r);
      case Ack(_, _) => AckTracks(cs, r);
      case DeleteQueue => DeleteTracks(cs, r);
      case CreateQueue => CatalogTracks(cs, r);
      case UpdateSubPolicy(_) => CatalogTracks(cs, r);
      case DeleteSubPolicy(_) => CatalogTracks(cs, r);
      case _ =>
    }
  }

  /** Folding a served log ends in a state that stands for the log's live state. */
  lemma {:induction false} FoldTracks(cs: State, recs: seq<Record>)
    requires Inv(cs) && LS.ServedFrom(LiveOf(cs), recs)
    ensures Inv(Fold(cs, recs)) && LiveOf(Fold(cs, recs)) == LS.Run(LiveOf(cs), recs)
    decreases |recs|
  {
    if recs != [] {
      FoldTracks(cs, recs[..|recs| - 1]);
      StepTracks(Fold(cs, recs[..|recs| - 1]), recs[|recs| - 1]);
    }
  }

  lemma InitTracks()
    ensures Inv(INIT) && LiveOf(INIT) == LS.NOTHING
  {
    assert CatalogOf(INIT) == map[];
    assert PendingOf(INIT) == map[];
  }

  lemma FoldOfServed(recs: seq<Record>)
    requires LS.ServedLog(recs)
    ensures Inv(Fold(INIT, recs)) && LiveOf(Fold(INIT, recs)) == LS.Run(LS.NOTHING, recs)
  {
    InitTracks();
    FoldTracks(INIT, recs);
  }

  lemma FoldOfLegal(recs: seq<Record>)
    requires LS.LegalLog(recs)
    ensures Inv(Fold(INIT, recs)) && LiveOf(Fold(INIT, recs)) == LS.Run(LS.NOTHING, recs)
  {
    LS.LegalIsServed(LS.NOTHING, recs);
    FoldOfServed(recs);
  }
}
