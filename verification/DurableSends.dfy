/**
  What durable-mq sends, and to whom, over any number of crashes: what was
  enqueued, to those to whom the log still owes it.
 */
module DurableSends {
  import opened Records
  import LS = LiveState
  import LL = LiveLaw
  import RL = ReplayLaw
  import opened Worker
  import L = Leadership
  import opened DurableDelivery
  import opened DurableSafety

  // ---- What is sent ----

  /** Record e enqueues what is sent here, addressed to this subscriber among others. */
  ghost predicate Ships(log: seq<Record>, e: int, send: L.Send) {
    Addresses(log, e, LS.Key(send.queue, send.id), send.sub) && log[e].op.content == send.payload
  }

  ghost predicate Shipped(log: seq<Record>, send: L.Send) {
    exists e :: Ships(log, e, send)
  }

  ghost predicate MadeAt(log: seq<Record>, e: int, c: Copy) {
    0 <= e < |log| && log[e].queueName == c.queue && log[e].op == Enqueue(c.id, c.payload, c.subList)
  }

  /** The log enqueues what the copy is a copy of. */
  ghost predicate Made(log: seq<Record>, c: Copy) {
    exists e :: MadeAt(log, e, c)
  }

  ghost predicate AllShipped(s: Broker) {
    && (forall u :: u in s.slots ==> Made(s.log, s.slots[u].copy))
    && (forall x :: 0 <= x < |s.sends| ==> Shipped(s.log, s.sends[x]))
  }

  /** Acks and failures do not change what a copy carries. */
  lemma SameMade(log: seq<Record>, c: Copy, c': Copy)
    requires Made(log, c) && c'.queue == c.queue && c'.id == c.id && c'.payload == c.payload && c'.subList == c.subList
    ensures Made(log, c')
  {
    var e :| MadeAt(log, e, c);
    assert MadeAt(log, e, c');
  }

  lemma MadeGrows(log: seq<Record>, r: Record, c: Copy)
    requires Made(log, c)
    ensures Made(log + [r], c)
  {
    var e :| MadeAt(log, e, c);
    assert MadeAt(log + [r], e, c);
  }

  lemma ShippedGrows(log: seq<Record>, r: Record, send: L.Send)
    requires Shipped(log, send)
    ensures Shipped(log + [r], send)
  {
    var e :| Ships(log, e, send);
    assert (log + [r])[e] == log[e] && Ships(log + [r], e, send);
  }

  /** One more record, and everything before it still carries. */
  lemma MoreShips(s: Broker, r: Record)
    requires AllShipped(s)
    ensures AllShipped(s.(log := s.log + [r]))
  {
    forall u | u in s.slots ensures Made(s.log + [r], s.slots[u].copy) { MadeGrows(s.log, r, s.slots[u].copy); }
    forall x | 0 <= x < |s.sends| ensures Shipped(s.log + [r], s.sends[x]) { ShippedGrows(s.log, r, s.sends[x]); }
  }

  lemma ServeShips(s: Broker, s': Broker, r: Record)
    requires Serve(s, s', r) && AllShipped(s)
    ensures AllShipped(s')
  {
    MoreShips(s, r);
    hide LS.Served, FreshId;
    if r.op.Enqueue? { assert MadeAt(s'.log, |s.log|, NewCopy(r)); }
    hide Made, Shipped;
  }

  lemma MadeIsShipped(log: seq<Record>, u: nat, c: Copy, order: seq<string>, ok: set<string>, x: nat)
    requires Made(log, c) && (forall sub :: sub in order <==> sub in Pending(c)) && x < |order|
    ensures Shipped(log, L.SendsOf(u, c, order, ok)[x])
  {
    var e :| MadeAt(log, e, c);
    assert order[x] in order;
    assert Ships(log, e, L.SendsOf(u, c, order, ok)[x]);
  }

  lemma AttemptShips(s: Broker, s': Broker, u: nat, order: seq<string>, ok: set<string>)
    requires Attempt(s, s', u, order, ok) && AllShipped(s)
    ensures AllShipped(s')
  {
    hide Made, Shipped, Finished;
    var c := s.slots[u].copy;
    SendsKeepCopy(c, ok);
    SameMade(s.log, c, AfterSends(c, ok));
    var more := L.SendsOf(u, c, order, ok);
    forall x | 0 <= x < |s'.sends| ensures Shipped(s'.log, s'.sends[x]) {
      if x >= |s.sends| {
        MadeIsShipped(s.log, u, c, order, ok, x - |s.sends|);
        assert s'.sends[x] == more[x - |s.sends|];
      }
    }
  }

  lemma LogAckShips(s: Broker, s': Broker, u: nat, sub: string)
    requires LogAck(s, s', u, sub) && AllShipped(s)
    ensures AllShipped(s')
  {
    MoreShips(s, s'.log[|s.log|]);
    hide Made, Shipped;
    SameMade(s'.log, s.slots[u].copy, s'.slots[u].copy);
  }

  /** What a restart takes up is pending, so some record enqueued it. */
  lemma RestartShips(s: Broker, s': Broker)
    requires Restart(s, s') && AllShipped(s)
    ensures AllShipped(s')
  {
    hide Shipped, LS.Run;
    forall u | u in s'.slots ensures Made(s'.log, s'.slots[u].copy) {
      var c := s'.slots[u].copy;
      var k, m := KeyOf(c), Live(s.log).pending[KeyOf(c)];
      LL.PendingReadsOff(s.log, k, m);
      assert LL.Waits(Live(s.log), k, m);
      var e :| LL.FiledAt(s.log, e, k) && m == LL.Filed(s.log, e, k);
      assert MadeAt(s.log, e, c);
    }
  }

  lemma NextShips(s: Broker, s': Broker, ev: Event)
    requires Next(s, s', ev) && AllShipped(s)
    ensures AllShipped(s')
  {
    hide Serve, Attempt, LogAck, Restart, Made, Shipped, DeletedSince, Pending;
    match ev
    case ServeEvent(r) => ServeShips(s, s', r);
    case AttemptEvent(u, order, ok) => AttemptShips(s, s', u, order, ok);
    case LogAckEvent(u, sub) => LogAckShips(s, s', u, sub);
    case RestartEvent => RestartShips(s, s');
    case _ =>
  }

  lemma {:induction false} RunShips(states: seq<Broker>, events: seq<Event>, j: nat)
    requires IsRun(states, events) && j < |states|
    ensures AllShipped(states[j])
    decreases j
  {
    if j > 0 {
      RunShips(states, events, j - 1);
      hide Next, AllShipped;
      NextShips(states[j - 1], states[j], events[j - 1]);
    }
  }

  /** In every run, whatever is sent is what the log enqueued under that id on that queue, and goes to a subscriber that
      the message was addressed to. */
  lemma SentAsEnqueued(states: seq<Broker>, events: seq<Event>, j: nat, x: nat)
    requires IsRun(states, events) && j < |states| && x < |states[j].sends|
    ensures exists e :: Ships(states[j].log, e, states[j].sends[x])
  {
    RunShips(states, events, j);
    hide IsRun;
    assert Shipped(states[j].log, states[j].sends[x]);
  }

  // ---- To whom ----

  /** If someone waits for this copy then the log says so too, unless its queue has been deleted. */
  ghost predicate Due(log: seq<Record>, c: Copy) {
    KeyOf(c) in Live(log).pending || Pending(c) == {} || DeletedSince(log, KeyOf(c))
  }

  ghost predicate AllDue(s: Broker) {
    forall u :: u in s.slots ==> Due(s.log, s.slots[u].copy)
  }

  lemma DeletedGrows(log: seq<Record>, r: Record, k: LS.Key)
    requires DeletedSince(log, k)
    ensures DeletedSince(log + [r], k)
  {
    var e, d :| e < d && RL.EnqueuesMessage(log, e, k.queue, k.id) && RL.DeletesQueue(log, d, k.queue);
    assert RL.EnqueuesMessage(log + [r], e, k.queue, k.id) && RL.DeletesQueue(log + [r], d, k.queue);
  }

  lemma NowDeleted(log: seq<Record>, r: Record, c: Copy)
    requires FromLog(log, c) && r.op.DeleteQueue? && r.queueName == c.queue
    ensures DeletedSince(log + [r], KeyOf(c))
  {
    var e :| RL.EnqueuesMessage(log, e, c.queue, c.id);
    assert RL.EnqueuesMessage(log + [r], e, c.queue, c.id) && RL.DeletesQueue(log + [r], |log|, c.queue);
  }

  /** A record that is no ack for this message leaves it due. */
  lemma OthersDue(log: seq<Record>, r: Record, c: Copy)
    requires Due(log, c) && FromLog(log, c) && !(r.op.Ack? && r.op.ackedId == c.id)
    ensures Due(log + [r], c)
  {
    LiveSnoc(log, r);
    hide LS.Run, FromLog, DeletedSince;
    if DeletedSince(log, KeyOf(c)) {
      DeletedGrows(log, r, KeyOf(c));
    } else if r.op.DeleteQueue? && r.queueName == c.queue {
      NowDeleted(log, r, c);
    }
  }

  /** The copy's own ack takes the message away only with the last of its subscribers. */
  lemma AckDue(log: seq<Record>, r: Record, c: Copy, sub: string)
    requires Due(log, c) && InStep(Live(log), c) && sub in Pending(c)
    requires r.op == Op.Ack(c.id, sub) && r.queueName == c.queue
    ensures Due(log + [r], c.(acked := c.acked + {sub}))
  {
    LiveSnoc(log, r);
    hide LS.Run, DeletedSince;
    if DeletedSince(log, KeyOf(c)) {
      DeletedGrows(log, r, KeyOf(c));
    }
  }

  lemma ServeDue(s: Broker, s': Broker, r: Record)
    requires Inv(s) && Serve(s, s', r) && AllDue(s)
    ensures AllDue(s')
  {
    assert Evidence(s);
    hide Inv, Evidence, LS.Served, FreshId, Due;
    forall u | u in s.slots ensures Due(s'.log, s.slots[u].copy) {
      CopyIsFromLog(s, u);
      OthersDue(s.log, r, s.slots[u].copy);
    }
    if r.op.Enqueue? { NewIsDue(s.log, r); }
  }

  lemma NewIsDue(log: seq<Record>, r: Record)
    requires r.op.Enqueue?
    ensures Due(log + [r], NewCopy(r))
  {
    LiveSnoc(log, r);
  }

  lemma LogAckDue(s: Broker, s': Broker, u: nat, sub: string)
    requires Inv(s) && LogAck(s, s', u, sub) && AllDue(s)
    ensures AllDue(s')
  {
    var r := s'.log[|s.log|];
    forall v | v in s'.slots ensures Due(s'.log, s'.slots[v].copy) {
      if v == u {
        ToAckIsPending(s, u, sub);
        assert InStep(Live(s.log), s.slots[u].copy);
        AckDue(s.log, r, s.slots[u].copy, sub);
      } else {
        CopyIsFromLog(s, v);
        assert s.slots[v].copy.id != s.slots[u].copy.id;
        OthersDue(s.log, r, s.slots[v].copy);
      }
    }
  }

  lemma NextDue(s: Broker, s': Broker, ev: Event)
    requires Inv(s) && Next(s, s', ev) && AllDue(s)
    ensures AllDue(s')
  {
    hide Inv, Serve, LogAck, DeletedSince, LS.Run, Finished, AfterSends, L.SendsOf;
    match ev
    case ServeEvent(r) => ServeDue(s, s', r);
    case LogAckEvent(u, sub) => LogAckDue(s, s', u, sub);
    case AttemptEvent(u, order, ok) => SendsKeepCopy(s.slots[u].copy, ok);
    case _ =>
  }

  lemma {:induction false} RunDue(states: seq<Broker>, events: seq<Event>, i: nat)
    requires IsRun(states, events) && i < |states|
    ensures AllDue(states[i])
  {
    if i > 0 {
      RunDue(states, events, i - 1);
      RunKeeps(states, events, i - 1);
      hide Next, AllDue, Inv;
      NextDue(states[i - 1], states[i], events[i - 1]);
    }
  }

  /** Every round of sends, in every run, restarts included, goes to subscribers to whom the log owes the message at
      that moment; only the backlog of a deleted queue may still be sent. */
  lemma SentOnlyWhileOwed(states: seq<Broker>, events: seq<Event>, i: nat, sub: string)
    requires IsRun(states, events) && i < |events| && events[i].AttemptEvent? && sub in events[i].order
    ensures
      var s, u := states[i], events[i].u;
      && u in s.slots
      && (Owed(s.log, KeyOf(s.slots[u].copy), sub) || DeletedSince(s.log, KeyOf(s.slots[u].copy)))
  {
    RunKeeps(states, events, i);
    RunDue(states, events, i);
    var s, u := states[i], events[i].u;
    assert Next(s, states[i + 1], events[i]);
    hide IsRun, Evidence, LogOk, LS.Run, DeletedSince;
    assert Due(s.log, s.slots[u].copy) && InStep(Live(s.log), s.slots[u].copy);
    assert sub in Pending(s.slots[u].copy);
  }
}
