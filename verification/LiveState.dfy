/**
  The abstract machine that the log is a history of: the catalog of queues and
  policies, and the messages that still owe some subscriber a delivery. This is
  exactly what a restarted broker keeps.
 */
module LiveState {
  import opened Records

  datatype Key = Key(queue: string, id: string)

  datatype Live = Live(catalog: map<string, map<string, SubPolicy>>, pending: map<Key, Message>)

  const NOTHING := Live(map[], map[])

  /** What may be appended in state `l`. The coordinator checks the queue for
      every operation but create and ack; ids are fresh, and an ack names a
      message that is still pending on that queue. */
  ghost predicate Legal(l: Live, r: Record) {
    match r.op
    case Enqueue(id, _, subList) =>
      r.queueName in l.catalog && Keyed(subList) && forall k :: k in l.pending ==> k.id != id
    case Ack(id, _) => Key(r.queueName, id) in l.pending
    case DeleteQueue => r.queueName in l.catalog
    case UpdateSubPolicy(_) => r.queueName in l.catalog
    case DeleteSubPolicy(_) => r.queueName in l.catalog
    case Undecodable(kind) => kind == EndPayload
    case Unknown => false
    case _ => true
  }

  /** What the serving path appends in state `l`: as `Legal`, but nobody checks an ack. It names a message that is
      pending on its queue, or one that nobody waits for, be it settled, deleted with its queue, or never known. */
  ghost predicate Served(l: Live, r: Record) {
    if r.op.Ack? then Key(r.queueName, r.op.ackedId) in l.pending || forall k :: k in l.pending ==> k.id != r.op.ackedId
    else Legal(l, r)
  }

  function DropQueue(pending: map<Key, Message>, queue: string): map<Key, Message> {
    map k | k in pending && k.queue != queue :: pending[k]
  }

  function Step(l: Live, r: Record): Live {
    match r.op
    case Enqueue(id, content, subList) =>
      if subList == map[] then l
      else l.(pending := l.pending[Key(r.queueName, id) := Message(content, subList, {})])
    case Ack(id, s) =>
      var k := Key(r.queueName, id);
      if k !in l.pending then l
      else
        var m := l.pending[k].Settle(s);
        l.(pending := if m.Unsettled() then l.pending[k := m] else l.pending - {k})
    case CreateQueue => l.(catalog := l.catalog[r.queueName := map[]])
    case DeleteQueue => Live(l.catalog - {r.queueName}, DropQueue(l.pending, r.queueName))
    case UpdateSubPolicy(p) =>
      if r.queueName !in l.catalog then l
      else l.(catalog := l.catalog[r.queueName := l.catalog[r.queueName][p.subName := p]])
    case DeleteSubPolicy(p) =>
      if r.queueName !in l.catalog then l
      else l.(catalog := l.catalog[r.queueName := l.catalog[r.queueName] - {p.subName}])
    case _ => l
  }

  function Run(l: Live, recs: seq<Record>): Live {
    if recs == [] then l else Step(Run(l, recs[..|recs| - 1]), recs[|recs| - 1])
  }

  /** Every record is legal in the state that the ones before it lead to. */
  ghost predicate LegalFrom(l: Live, recs: seq<Record>) {
    recs == [] ||
    (LegalFrom(l, recs[..|recs| - 1]) && Legal(Run(l, recs[..|recs| - 1]), recs[|recs| - 1]))
  }

  ghost predicate LegalLog(recs: seq<Record>) {
    LegalFrom(NOTHING, recs)
  }

  /** Legal except perhaps for its acks. */
  ghost predicate ServedFrom(l: Live, recs: seq<Record>) {
    recs == [] ||
    (ServedFrom(l, recs[..|recs| - 1]) && Served(Run(l, recs[..|recs| - 1]), recs[|recs| - 1]))
  }

  ghost predicate ServedLog(recs: seq<Record>) {
    ServedFrom(NOTHING, recs)
  }

  lemma {:induction false} LegalIsServed(l: Live, recs: seq<Record>)
    requires LegalFrom(l, recs)
    ensures ServedFrom(l, recs)
    decreases |recs|
  {
    if recs != [] {
      LegalIsServed(l, recs[..|recs| - 1]);
    }
  }

  lemma {:induction false} RunConcat(l: Live, a: seq<Record>, b: seq<Record>)
    ensures Run(l, a + b) == Run(Run(l, a), b)
    ensures LegalFrom(l, a + b) <==> LegalFrom(l, a) && LegalFrom(Run(l, a), b)
    ensures ServedFrom(l, a + b) <==> ServedFrom(l, a) && ServedFrom(Run(l, a), b)
    decreases |b|
  {
    if b == [] {
      assert a + b == a;
    } else {
      var b' := b[..|b| - 1];
      assert (a + b)[..|a + b| - 1] == a + b';
      RunConcat(l, a, b');
    }
  }

  lemma RunSnoc(l: Live, recs: seq<Record>, r: Record)
    ensures Run(l, recs + [r]) == Step(Run(l, recs), r)
    ensures LegalFrom(l, recs + [r]) <==> LegalFrom(l, recs) && Legal(Run(l, recs), r)
    ensures ServedFrom(l, recs + [r]) <==> ServedFrom(l, recs) && Served(Run(l, recs), r)
  {
    assert (recs + [r])[..|recs|] == recs;
  }
}
