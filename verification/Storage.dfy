/**
  dist-mq's replicated state machine: the in-memory store that every node
  applies the committed commands to.
 */
module Storage {
  import Records

  type SubPolicy = Records.SubPolicy

  datatype MessageState = MessageState(
    seqNo: nat, msgID: string, payload: string, subList: map<string, SubPolicy>, acked: set<string>)

  datatype QueueState = QueueState(name: string, subs: map<string, SubPolicy>, messages: map<string, MessageState>)

  datatype Store = Store(queues: map<string, QueueState>, nextSeq: nat)

  const EMPTY := Store(map[], 0)

  /** `Undecodable` is an entry that does not decode, or decodes to a type that is not handled. */
  datatype Command =
    | CreateQueue(queue: string)
    | DeleteQueue(queue: string)
    | PutSubPolicy(queue: string, policy: SubPolicy)
    | DeleteSubPolicy(queue: string, sub: string)
    | Enqueue(queue: string, msgID: string, payload: string, subList: map<string, SubPolicy>)
    | Ack(queue: string, msgID: string, subNames: seq<string>)
    | Undecodable

  /** What a command answers: nothing, an error, or the message enqueued. */
  datatype Response = NoError | QueueExists | QueueNotFound | Rejected | Enqueued(message: MessageState)

  datatype Outcome = Outcome(store: Store, response: Response)

  function Named(subNames: seq<string>): set<string> {
    set s | s in subNames
  }

  /** The message after the named subscribers settled; names outside the snapshot are ignored. */
  function Settled(m: MessageState, subNames: seq<string>): MessageState {
    m.(acked := m.acked + (Named(subNames) * m.subList.Keys))
  }

  /** A message is dropped when its acks are as many as its subscribers. */
  predicate Complete(m: MessageState) {
    |m.acked| >= |m.subList|
  }

  function WithMessages(s: Store, q: string, messages: map<string, MessageState>): Store
    requires q in s.queues
  {
    s.(queues := s.queues[q := s.queues[q].(messages := messages)])
  }

  function ApplyEnqueue(s: Store, c: Command): Outcome
    requires c.Enqueue?
  {
    if c.queue !in s.queues then Outcome(s, QueueNotFound)
    else
      var messages := s.queues[c.queue].messages;
      if c.msgID in messages then Outcome(s, Enqueued(messages[c.msgID]))
      else
        var m := MessageState(s.nextSeq, c.msgID, c.payload, c.subList, {});
        var s' := s.(nextSeq := s.nextSeq + 1);
        Outcome(if c.subList == map[] then s' else WithMessages(s', c.queue, messages[c.msgID := m]), Enqueued(m))
  }

  function ApplyAck(s: Store, c: Command): Outcome
    requires c.Ack?
  {
    if c.queue !in s.queues || c.msgID !in s.queues[c.queue].messages then Outcome(s, NoError)
    else
      var messages := s.queues[c.queue].messages;
      var m := Settled(messages[c.msgID], c.subNames);
      Outcome(WithMessages(s, c.queue, if Complete(m) then messages - {c.msgID} else messages[c.msgID := m]), NoError)
  }

  function Apply(s: Store, c: Command): Outcome {
    match c
    case CreateQueue(q) =>
      if q in s.queues then Outcome(s, QueueExists)
      else Outcome(s.(queues := s.queues[q := QueueState(q, map[], map[])]), NoError)
    case DeleteQueue(q) =>
      if q !in s.queues then Outcome(s, QueueNotFound) else Outcome(s.(queues := s.queues - {q}), NoError)
    case PutSubPolicy(q, p) =>
      if q !in s.queues then Outcome(s, QueueNotFound)
      else Outcome(s.(queues := s.queues[q := s.queues[q].(subs := s.queues[q].subs[p.subName := p])]), NoError)
    case DeleteSubPolicy(q, sub) =>
      if q !in s.queues then Outcome(s, QueueNotFound)
      else Outcome(s.(queues := s.queues[q := s.queues[q].(subs := s.queues[q].subs - {sub})]), NoError)
    case Enqueue(_, _, _, _) => ApplyEnqueue(s, c)
    case Ack(_, _, _) => ApplyAck(s, c)
    case Undecodable => Outcome(s, Rejected)
  }

  function Run(s: Store, log: seq<Command>): Store {
    if log == [] then s else Apply(Run(s, log[..|log| - 1]), log[|log| - 1]).store
  }

  // ---- Reading a store ----

  predicate Holds(s: Store, q: string, id: string) {
    q in s.queues && id in s.queues[q].messages
  }

  function MessageAt(s: Store, q: string, id: string): MessageState
    requires Holds(s, q, id)
  {
    s.queues[q].messages[id]
  }

  /** Subscriber `sub` is still owed message `id` of queue `q`. */
  predicate Owed(s: Store, q: string, id: string, sub: string) {
    Holds(s, q, id) && sub in MessageAt(s, q, id).subList && sub !in MessageAt(s, q, id).acked
  }

  // ---- Invariant ----

  /** A stored message is filed under its id, numbered below nextSeq, and some subscriber has not settled. */
  ghost predicate MessageOk(m: MessageState, id: string, nextSeq: nat) {
    m.msgID == id && m.seqNo < nextSeq && m.acked < m.subList.Keys
  }

  ghost predicate Inv(s: Store) {
    && (forall q :: q in s.queues ==> s.queues[q].name == q)
    && (forall q, id :: Holds(s, q, id) ==> MessageOk(MessageAt(s, q, id), id, s.nextSeq))
    && (forall q, id, q', id' :: Holds(s, q, id) && Holds(s, q', id') && (q != q' || id != id')
          ==> MessageAt(s, q, id).seqNo != MessageAt(s, q', id').seqNo)
  }

  /** The cardinality test means coverage, because acks never leave the snapshot. */
  lemma CompleteMeansCovered(m: MessageState)
    requires m.acked <= m.subList.Keys
    ensures Complete(m) <==> m.acked == m.subList.Keys
  {
    if sub :| sub in m.subList.Keys && sub !in m.acked {
      assert m.acked <= m.subList.Keys - {sub};
      SubsetSize(m.acked, m.subList.Keys - {sub});
    } else {
      assert m.acked == m.subList.Keys;
    }
  }

  lemma SubsetSize(a: set<string>, b: set<string>)
    requires a <= b
    ensures |a| <= |b|
  {
    assert b == a + (b - a);
  }

  /** One command changes at most one message; every other one stays as it is or leaves with its queue. */
  lemma HoldsAfter(s: Store, c: Command, q: string, id: string)
    requires Holds(Apply(s, c).store, q, id) && Inv(s)
    ensures
      var m := MessageAt(Apply(s, c).store, q, id);
      || (Holds(s, q, id) && (m == MessageAt(s, q, id)
          || (c.Ack? && c.queue == q && c.msgID == id && m == Settled(MessageAt(s, q, id), c.subNames) &&
            !Complete(m))))
      || (c.Enqueue? && c.queue == q && c.msgID == id && !Holds(s, q, id) && c.subList != map[]
          && m == MessageState(s.nextSeq, id, c.payload, c.subList, {}))
  {
    match c
    case Enqueue(_, _, _, _) =>
    case Ack(_, _, _) =>
    case _ => OthersKeepMessage(s, c, q, id);
  }

  lemma OthersKeepMessage(s: Store, c: Command, q: string, id: string)
    requires Holds(Apply(s, c).store, q, id) && !c.Enqueue? && !c.Ack?
    ensures Holds(s, q, id) && MessageAt(Apply(s, c).store, q, id) == MessageAt(s, q, id)
  {
  }

  lemma StepKeepsInv(s: Store, c: Command)
    requires Inv(s)
    ensures Inv(Apply(s, c).store) && s.nextSeq <= Apply(s, c).store.nextSeq
  {
    var s' := Apply(s, c).store;
    forall q, id | Holds(s', q, id) ensures MessageOk(MessageAt(s', q, id), id, s'.nextSeq) {
      StepKeepsMessage(s, c, q, id);
    }
    forall q, id, q', id' | Holds(s', q, id) && Holds(s', q', id') && (q != q' || id != id')
      ensures MessageAt(s', q, id).seqNo != MessageAt(s', q', id').seqNo
    {
      HoldsAfter(s, c, q, id);
      HoldsAfter(s, c, q', id');
    }
  }

  lemma StepKeepsMessage(s: Store, c: Command, q: string, id: string)
    requires Inv(s) && Holds(Apply(s, c).store, q, id)
    ensures MessageOk(MessageAt(Apply(s, c).store, q, id), id, Apply(s, c).store.nextSeq)
  {
    HoldsAfter(s, c, q, id);
    var m := MessageAt(Apply(s, c).store, q, id);
    if Holds(s, q, id) {
      CompleteMeansCovered(m);
    } else {
      var sub :| sub in c.subList;
      assert sub in m.subList.Keys;
    }
  }

  lemma {:induction false} RunKeepsInv(log: seq<Command>)
    ensures Inv(Run(EMPTY, log))
    decreases |log|
  {
    if log != [] {
      RunKeepsInv(log[..|log| - 1]);
      StepKeepsInv(Run(EMPTY, log[..|log| - 1]), log[|log| - 1]);
    }
  }
}
