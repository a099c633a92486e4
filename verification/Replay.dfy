/**
  Startup replay: the catalog and delivery state that ReplayLog folds the log
  into, and the proof that on legal logs it tracks the live machine.
 */
module Replay {
  import opened Options
  import opened Records
  import LS = LiveState

  /** `queues` maps a queue name to its messages by id. */
  datatype State = State(
    catalog: map<string, map<string, SubPolicy>>,
    queues: map<string, map<string, Message>>)

  const INIT := State(map[], map[])

  /** delivery.ProcessEnqueue: last write wins, and the queue's entry is made on first use. */
  function Enqueued(queues: map<string, map<string, Message>>, q: string, id: string, m: Message)
    : map<string, map<string, Message>>
  {
    queues[q := (if q in queues then queues[q] else map[])[id := m]]
  }

  /** One record of the replay loop; None is the error that stops the startup. */
  function Step(st: State, r: Record): Option<State> {
    var q := r.queueName;
    match r.op
    case Enqueue(id, content, subList) =>
      Some(st.(queues := Enqueued(st.queues, q, id, Message(content, subList, {}))))
    case Ack(id, s) =>
      if q !in st.queues || id !in st.queues[q] then None
      else Some(st.(queues := Enqueued(st.queues, q, id, st.queues[q][id].Settle(s))))
    case CreateQueue => Some(st.(catalog := st.catalog[q := map[]]))
    case DeleteQueue => Some(State(st.catalog - {q}, st.queues - {q}))
    case UpdateSubPolicy(p) =>
      if q !in st.catalog then None
      else Some(st.(catalog := st.catalog[q := st.catalog[q][p.subName := p]]))
    case DeleteSubPolicy(p) =>
      if q !in st.catalog then None
      else Some(st.(catalog := st.catalog[q := st.catalog[q] - {p.subName}]))
    case BeginCheckpoint => Some(st)
    case EndCheckpoint(_, _) => Some(st)
    case Undecodable(kind) => if kind == EndPayload then Some(st) else None
    case Unknown => None
  }

  function Run(st: State, recs: seq<Record>): Option<State> {
    if recs == [] then Some(st)
    else
      match Run(st, recs[..|recs| - 1])
      case None => None
      case Some(st') => Step(st', recs[|recs| - 1])
  }

  /** The keys of all messages held, settled or not. */
  function KeysOf(queues: map<string, map<string, Message>>): set<LS.Key> {
    set q, id | q in queues && id in queues[q] :: LS.Key(q, id)
  }

  predicate Holds(st: State, k: LS.Key) {
    k.queue in st.queues && k.id in st.queues[k.queue] && k.queue in st.catalog &&
    st.queues[k.queue][k.id].Unsettled()
  }

  /** What RestoreWAL keeps of a replayed state: queues of the catalog, and their unsettled messages. */
  function LiveOf(st: State): LS.Live {
    LS.Live(st.catalog, map k | k in KeysOf(st.queues) && Holds(st, k) :: st.queues[k.queue][k.id])
  }

  /** Messages are only held for queues of the catalog. */
  ghost predicate Clean(st: State) {
    st.queues.Keys <= st.catalog.Keys
  }

  lemma LivePending(st: State, k: LS.Key)
    ensures k in LiveOf(st).pending <==> Holds(st, k)
    ensures k in LiveOf(st).pending ==> LiveOf(st).pending[k] == st.queues[k.queue][k.id]
  {
    assert k == LS.Key(k.queue, k.id);
  }

  lemma EnqueuedAt(queues: map<string, map<string, Message>>, q: string, id: string, m: Message, q': string,
                   id': string)
    ensures
      var next := Enqueued(queues, q, id, m);
      if q' == q && id' == id then q' in next && id' in next[q'] && next[q'][id'] == m
      else
        && ((q' in next && id' in next[q']) <==> (q' in queues && id' in queues[q']))
        && (q' in next && id' in next[q'] ==> next[q'][id'] == queues[q'][id'])
  {
  }

  lemma LivePendingEnqueued(st: State, q: string, id: string, m: Message, j: LS.Key)
    requires q in st.catalog
    ensures
      var p, p' := LiveOf(st).pending, LiveOf(st.(queues := Enqueued(st.queues, q, id, m))).pending;
      && (j in p' <==> if j == LS.Key(q, id) then m.Unsettled() else j in p)
      && (j in p' ==> p'[j] == if j == LS.Key(q, id) then m else p[j])
  {
    EnqueuedAt(st.queues, q, id, m, j.queue, j.id);
    LivePending(st, j);
    LivePending(st.(queues := Enqueued(st.queues, q, id, m)), j);
  }

  /** Changing one message of a clean state changes one entry of the live state. */
  lemma LiveOfEnqueued(st: State, q: string, id: string, m: Message)
    requires q in st.catalog
    ensures
      var k := LS.Key(q, id);
      LiveOf(st.(queues := Enqueued(st.queues, q, id, m))).pending ==
      if m.Unsettled() then LiveOf(st).pending[k := m] else LiveOf(st).pending - {k}
  {
    var k := LS.Key(q, id);
    var p, p' := LiveOf(st).pending, LiveOf(st.(queues := Enqueued(st.queues, q, id, m))).pending;
    var want := if m.Unsettled() then p[k := m] else p - {k};
    hide LiveOf, Enqueued, Message.Unsettled;
    forall j: LS.Key
      ensures j in p' <==> j in want
      ensures j in p' ==> p'[j] == want[j]
    {
      LivePendingEnqueued(st, q, id, m, j);
    }
  }

  lemma LivePendingDeleted(st: State, q: string, j: LS.Key)
    ensures
      var p, p' := LiveOf(st).pending, LiveOf(State(st.catalog - {q}, st.queues - {q})).pending;
      (j in p' <==> j in p && j.queue != q) && (j in p' ==> p'[j] == p[j])
  {
    LivePending(st, j);
    LivePending(State(st.catalog - {q}, st.queues - {q}), j);
  }

  lemma LiveOfDeleted(st: State, q: string)
    ensures LiveOf(State(st.catalog - {q}, st.queues - {q})).pending == LS.DropQueue(LiveOf(st).pending, q)
  {
    hide LiveOf;
    var p, p' := LS.DropQueue(LiveOf(st).pending, q), LiveOf(State(st.catalog - {q}, st.queues - {q})).pending;
    forall j: LS.Key
      ensures j in p' <==> j in p
      ensures j in p' ==> p'[j] == p[j]
    {
      LivePendingDeleted(st, q, j);
    }
  }

  /** With no stray messages, the catalog's own changes leave the pending messages alone. */
  lemma LiveOfCatalog(st: State, catalog: map<string, map<string, SubPolicy>>)
    requires Clean(st) && st.catalog.Keys <= catalog.Keys
    ensures LiveOf(st.(catalog := catalog)).pending == LiveOf(st).pending
  {
    var st' := st.(catalog := catalog);
    var p, p' := LiveOf(st).pending, LiveOf(st').pending;
    forall j: LS.Key
      ensures j in p' <==> j in p
      ensures j in p' ==> p'[j] == p[j]
    {
      LivePending(st, j);
      LivePending(st', j);
    }
  }

  /** One legal record never fails to replay, and moves the live state as the live machine does. */
  lemma StepSimulates(st: State, r: Record)
    requires Clean(st) && LS.Legal(LiveOf(st), r)
    ensures Step(st, r).Some? && Clean(Step(st, r).value)
    ensures LiveOf(Step(st, r).value) == LS.Step(LiveOf(st), r)
  {
    var q := r.queueName;
    match r.op {
      case Enqueue(id, content, subList) =>
        var m := Message(content, subList, {});
        LiveOfEnqueued(st, q, id, m);
        if subList == map[] {
          assert LS.Key(q, id) !in LiveOf(st).pending;
          assert LiveOf(st).pending - {LS.Key(q, id)} == LiveOf(st).pending;
        } else {
          var s :| s in subList;
          assert m.Unsettled();
        }
      case Ack(id, s) =>
        LiveOfEnqueued(st, q, id, st.queues[q][id].Settle(s));
      case DeleteQueue =>
        LiveOfDeleted(st, q);
      case CreateQueue => LiveOfCatalog(st, Step(st, r).value.catalog);
      case UpdateSubPolicy(_) => LiveOfCatalog(st, Step(st, r).value.catalog);
      case DeleteSubPolicy(_) => LiveOfCatalog(st, Step(st, r).value.catalog);
      case _ =>
    }
  }

  /** The replay knows this message, settled or not. */
  ghost predicate HasMessage(st: State, q: string, id: string) {
    q in st.queues && id in st.queues[q]
  }

  /** An ack of a message that has settled changes nothing that the live state shows. */
  lemma LateAckSimulates(st: State, r: Record)
    requires Clean(st) && r.op.Ack? && HasMessage(st, r.queueName, r.op.ackedId)
    requires LS.Key(r.queueName, r.op.ackedId) !in LiveOf(st).pending
    ensures LiveOf(Step(st, r).value) == LiveOf(st)
  {
    var q, id := r.queueName, r.op.ackedId;
    LivePending(st, LS.Key(q, id));
    LiveOfEnqueued(st, q, id, st.queues[q][id].Settle(r.op.subName));
    hide LiveOf, Enqueued;
    assert LiveOf(st).pending - {LS.Key(q, id)} == LiveOf(st).pending;
  }

  /** A served record stops the replay only if it is an ack of a message the replay does not know; otherwise it moves
      the live state as the live machine does. */
  lemma ServedSimulates(st: State, r: Record)
    requires Clean(st) && LS.Served(LiveOf(st), r)
    ensures Step(st, r).Some? <==> (r.op.Ack? ==> HasMessage(st, r.queueName, r.op.ackedId))
    ensures Step(st, r).Some? ==> Clean(Step(st, r).value) && LiveOf(Step(st, r).value) == LS.Step(LiveOf(st), r)
  {
    if LS.Legal(LiveOf(st), r) {
      StepSimulates(st, r);
      if r.op.Ack? { LivePending(st, LS.Key(r.queueName, r.op.ackedId)); }
    } else if HasMessage(st, r.queueName, r.op.ackedId) {
      LateAckSimulates(st, r);
    }
  }

  /** Replay of a legal log succeeds and ends in the live state the log stands for. */
  lemma {:induction false} ReplaySimulates(st: State, recs: seq<Record>)
    requires Clean(st) && LS.LegalFrom(LiveOf(st), recs)
    ensures Run(st, recs).Some? && Clean(Run(st, recs).value)
    ensures LiveOf(Run(st, recs).value) == LS.Run(LiveOf(st), recs)
    decreases |recs|
  {
    if recs != [] {
      ReplaySimulates(st, recs[..|recs| - 1]);
      StepSimulates(Run(st, recs[..|recs| - 1]).value, recs[|recs| - 1]);
    }
  }

  /** Replay of a served log ends, if it succeeds, in the live state the log stands for. */
  lemma {:induction false} ServedRun(st: State, recs: seq<Record>)
    requires Clean(st) && LS.ServedFrom(LiveOf(st), recs)
    ensures Run(st, recs).Some? ==>
              Clean(Run(st, recs).value) && LiveOf(Run(st, recs).value) == LS.Run(LiveOf(st), recs)
    decreases |recs|
  {
    if recs != [] {
      ServedRun(st, recs[..|recs| - 1]);
      if Run(st, recs[..|recs| - 1]).Some? {
        ServedSimulates(Run(st, recs[..|recs| - 1]).value, recs[|recs| - 1]);
      }
    }
  }

  lemma LiveOfInit()
    ensures Clean(INIT) && LiveOf(INIT) == LS.NOTHING
  {
    assert LiveOf(INIT).pending == map[];
  }

  /** The live state a record sequence replays to from an empty broker, if it replays at all. */
  function Recovered(recs: seq<Record>): Option<LS.Live> {
    match Run(INIT, recs)
    case None => None
    case Some(st) => Some(LiveOf(st))
  }

  lemma LegalLogRecovers(recs: seq<Record>)
    requires LS.LegalLog(recs)
    ensures Recovered(recs) == Some(LS.Run(LS.NOTHING, recs))
  {
    LiveOfInit();
    ReplaySimulates(INIT, recs);
  }

  lemma {:induction false} RunConcat(st: State, a: seq<Record>, b: seq<Record>)
    ensures Run(st, a + b) == match Run(st, a) case None => None case Some(st') => Run(st', b)
    decreases |b|
  {
    if b == [] {
      assert a + b == a;
    } else {
      var b' := b[..|b| - 1];
      assert (a + b)[..|a + b| - 1] == a + b';
      RunConcat(st, a, b');
    }
  }
}
