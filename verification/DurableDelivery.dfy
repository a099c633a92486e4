/**
  durable-mq's delivery over any number of processes: clients are served, workers
  send and log their acks one by one, the process crashes at any point and the
  next one takes up what the log still owes. `sends` records every delivery
  attempt ever made.
 */
module DurableDelivery {
  import opened Records
  import LS = LiveState
  import RL = ReplayLaw
  import opened Worker
  import L = Leadership
  import W = DurableWorker

  /** Where a copy is: in its queue, or with a worker that has the results of its sends and acks `toAck`. */
  datatype Place = InQueue | Sent(toAck: set<string>)

  datatype Slot = Slot(place: Place, copy: Copy)

  /** `log` is every record ever written; `slots` is the memory of the process that is up, by copy. */
  datatype Broker = Broker(log: seq<Record>, up: bool, slots: map<nat, Slot>, nextUid: nat, sends: seq<L.Send>)

  function Live(log: seq<Record>): LS.Live {
    LS.Run(LS.NOTHING, log)
  }

  function KeyOf(c: Copy): LS.Key {
    LS.Key(c.queue, c.id)
  }

  // ---- Steps ----

  /** No message was ever enqueued under this id. */
  ghost predicate FreshId(log: seq<Record>, id: string) {
    forall i :: 0 <= i < |log| && log[i].op.Enqueue? ==> log[i].op.msgId != id
  }

  /** NewQueueMsg: a copy of the message that the record enqueues. */
  function NewCopy(r: Record): Copy
    requires r.op.Enqueue?
  {
    Copy(r.queueName, r.op.msgId, r.op.content, r.op.subList, {}, map[])
  }

  /** A client's request is logged; an enqueued message also goes to its queue. */
  ghost predicate Serve(s: Broker, s': Broker, r: Record) {
    && s.up && !r.op.Ack? && LS.Served(Live(s.log), r) && (r.op.Enqueue? ==> FreshId(s.log, r.op.msgId))
    && s' == if r.op.Enqueue?
             then s.(log := s.log + [r], nextUid := s.nextUid + 1,
                     slots := s.slots[s.nextUid := Slot(InQueue, NewCopy(r))])
             else s.(log := s.log + [r])
  }

  function Moved(s: Broker, u: nat, place: Place, copy: Copy): Broker {
    s.(slots := s.slots[u := Slot(place, copy)])
  }

  /** One round of sends to all pending subscribers. */
  ghost predicate Attempt(s: Broker, s': Broker, u: nat, order: seq<string>, ok: set<string>) {
    && u in s.slots && s.slots[u].place.InQueue?
    && var c := s.slots[u].copy;
    && (forall i, j :: 0 <= i < j < |order| ==> order[i] != order[j]) && (forall x :: x in order <==> x in Pending(c))
    && s' == Moved(s, u, Sent(Finished(c, ok)), AfterSends(c, ok)).(sends := s.sends + L.SendsOf(u, c, order, ok))
  }

  /** One settled subscriber is acked in the log, and then in memory. */
  ghost predicate LogAck(s: Broker, s': Broker, u: nat, sub: string) {
    && u in s.slots && s.slots[u].place.Sent? && sub in s.slots[u].place.toAck
    && var c := s.slots[u].copy;
    s' == Moved(s, u, Sent(s.slots[u].place.toAck - {sub}), c.(acked := c.acked + {sub}))
          .(log := s.log + [Record(|s.log| + 1, c.queue, Op.Ack(c.id, sub))])
  }

  /** The append fails: memory does not take the ack. */
  ghost predicate AckFails(s: Broker, s': Broker, u: nat, sub: string) {
    && u in s.slots && s.slots[u].place.Sent? && sub in s.slots[u].place.toAck
    && s' == Moved(s, u, Sent(s.slots[u].place.toAck - {sub}), s.slots[u].copy)
  }

  /** The end of a pass: back to the queue if someone is left. */
  ghost predicate Finish(s: Broker, s': Broker, u: nat) {
    && u in s.slots && s.slots[u].place == Sent({})
    && s' == if Pending(s.slots[u].copy) == {} then s.(slots := s.slots - {u})
             else Moved(s, u, InQueue, s.slots[u].copy)
  }

  /** The message was enqueued, and its queue deleted after that. */
  ghost predicate DeletedSince(log: seq<Record>, k: LS.Key) {
    exists e, d :: e < d && RL.EnqueuesMessage(log, e, k.queue, k.id) && RL.DeletesQueue(log, d, k.queue)
  }

  /** The worker of a deleted queue stops and leaves its backlog. */
  ghost predicate Discard(s: Broker, s': Broker, u: nat) {
    && u in s.slots && s.slots[u].place.InQueue? && DeletedSince(s.log, KeyOf(s.slots[u].copy))
    && s' == s.(slots := s.slots - {u})
  }

  ghost predicate Crash(s: Broker, s': Broker) {
    s.up && s' == s.(up := false, slots := map[])
  }

  /** RestoreWAL: one fresh copy of every message that is pending in the log, and nothing else. */
  ghost predicate Restores(pending: map<LS.Key, Message>, slots: map<nat, Slot>, low: nat, high: nat) {
    && (forall u :: u in slots ==>
          && low <= u < high && KeyOf(slots[u].copy) in pending
          && var k := KeyOf(slots[u].copy);
             var m := pending[k];
             slots[u] == Slot(InQueue, Copy(k.queue, k.id, m.content, m.subList, m.acked, map[])))
    && (forall u, v :: u in slots && v in slots && KeyOf(slots[u].copy) == KeyOf(slots[v].copy) ==> u == v)
    && (forall k :: k in pending ==> exists u :: u in slots && KeyOf(slots[u].copy) == k)
  }

  /** A startup that comes up; what it comes up with is the live state of the log. */
  ghost predicate Restart(s: Broker, s': Broker) {
    && !s.up && s.nextUid <= s'.nextUid && Restores(Live(s.log).pending, s'.slots, s.nextUid, s'.nextUid)
    && s' == s.(up := true, slots := s'.slots, nextUid := s'.nextUid)
  }

  datatype Event =
    | ServeEvent(r: Record)
    | AttemptEvent(u: nat, order: seq<string>, ok: set<string>)
    | LogAckEvent(u: nat, sub: string)
    | AckFailsEvent(u: nat, sub: string)
    | FinishEvent(u: nat)
    | DiscardEvent(u: nat)
    | CrashEvent
    | RestartEvent

  ghost predicate Next(s: Broker, s': Broker, ev: Event) {
    match ev
    case ServeEvent(r) => Serve(s, s', r)
    case AttemptEvent(u, order, ok) => Attempt(s, s', u, order, ok)
    case LogAckEvent(u, sub) => LogAck(s, s', u, sub)
    case AckFailsEvent(u, sub) => AckFails(s, s', u, sub)
    case FinishEvent(u) => Finish(s, s', u)
    case DiscardEvent(u) => Discard(s, s', u)
    case CrashEvent => Crash(s, s')
    case RestartEvent => Restart(s, s')
  }

  const INIT := Broker([], false, map[], 0, [])

  ghost predicate IsPath(states: seq<Broker>, events: seq<Event>) {
    && |states| == |events| + 1
    && forall i :: 0 <= i < |events| ==> Next(states[i], states[i + 1], events[i])
  }

  ghost predicate IsRun(states: seq<Broker>, events: seq<Event>) {
    IsPath(states, events) && states[0] == INIT
  }

  // ---- What is owed, and evidence ----

  /** The log owes message k to `sub`. */
  ghost predicate Owed(log: seq<Record>, k: LS.Key, sub: string) {
    var p := Live(log).pending;
    k in p && sub in p[k].subList && sub !in p[k].acked
  }

  /** Position e enqueues message k, addressed to `sub` among others. */
  ghost predicate Addresses(log: seq<Record>, e: int, k: LS.Key, sub: string) {
    RL.EnqueuesMessage(log, e, k.queue, k.id) && sub in log[e].op.subList
  }

  /** One copy, made by one process, used up all attempts that the enqueued policy allows. */
  ghost predicate Exhausted(log: seq<Record>, sends: seq<L.Send>, k: LS.Key, sub: string) {
    exists e, u ::
      Addresses(log, e, k, sub) && L.Failures(sends, u, k.queue, k.id, sub) >= Attempts(log[e].op.subList[sub])
  }

  ghost predicate Justified(log: seq<Record>, sends: seq<L.Send>, k: LS.Key, sub: string) {
    L.Delivered(sends, k.queue, k.id, sub) || Exhausted(log, sends, k, sub)
  }

  ghost predicate AckJustified(log: seq<Record>, sends: seq<L.Send>, r: Record) {
    r.op.Ack? ==> Justified(log, sends, LS.Key(r.queueName, r.op.ackedId), r.op.subName)
  }

  lemma JustifiedGrows(log: seq<Record>, rs: seq<Record>, sends: seq<L.Send>, more: seq<L.Send>, k: LS.Key, sub: string)
    requires Justified(log, sends, k, sub)
    ensures Justified(log + rs, sends + more, k, sub)
  {
    if L.Delivered(sends, k.queue, k.id, sub) {
      var i :| 0 <= i < |sends| && sends[i].queue == k.queue && sends[i].id == k.id && sends[i].sub == sub &&
        sends[i].ok;
      assert (sends + more)[i] == sends[i];
    } else {
      var e, u :|
        Addresses(log, e, k, sub) && L.Failures(sends, u, k.queue, k.id, sub) >= Attempts(log[e].op.subList[sub]);
      assert (log + rs)[e] == log[e] && Addresses(log + rs, e, k, sub);
      L.FailuresConcat(sends, more, u, k.queue, k.id, sub);
    }
  }

  // ---- A worker's pass is a stretch of a run ----

  function Last(states: seq<Broker>): Broker
    requires states != []
  {
    states[|states| - 1]
  }

  lemma PathSnoc(states: seq<Broker>, events: seq<Event>, s': Broker, ev: Event)
    requires IsPath(states, events) && Next(Last(states), s', ev)
    ensures IsPath(states + [s'], events + [ev])
  {
    hide Next;
    var states', events' := states + [s'], events + [ev];
    forall i | 0 <= i < |events'| ensures Next(states'[i], states'[i + 1], events'[i]) {
      if i < |events| {
        assert states'[i] == states[i] && states'[i + 1] == states[i + 1] && events'[i] == events[i];
      } else {
        assert states'[i] == Last(states) && states'[i + 1] == s' && events'[i] == ev;
      }
    }
  }

  /** What logging the acks of `order` makes of a broker. */
  function Acked(s: Broker, u: nat, order: seq<string>): Broker
    requires u in s.slots && s.slots[u].place.Sent?
  {
    var c := s.slots[u].copy;
    Moved(s, u, Sent(s.slots[u].place.toAck - W.AsSet(order)), c.(acked := c.acked + W.AsSet(order)))
    .(log := s.log + W.Acks(c, order, |s.log| + 1))
  }

  lemma {:induction false} LogAll(s: Broker, u: nat, order: seq<string>, states: seq<Broker>, events: seq<Event>)
    returns (states': seq<Broker>, events': seq<Event>)
    requires u in s.slots && s.slots[u].place.Sent? && forall x :: x in order ==> x in s.slots[u].place.toAck
    requires forall i, j :: 0 <= i < j < |order| ==> order[i] != order[j]
    requires IsPath(states, events) && Last(states) == s
    ensures IsPath(states', events') && states <= states' && Last(states') == Acked(s, u, order)
    decreases |order|
  {
    hide IsPath;
    if order == [] {
      states', events' := states, events;
      assert W.AsSet(order) == {} && s.log + W.Acks(s.slots[u].copy, order, |s.log| + 1) == s.log;
      assert s.slots[u].place.toAck - {} == s.slots[u].place.toAck;
      assert s.slots[u].copy.acked + {} == s.slots[u].copy.acked;
      assert s.slots[u := s.slots[u]] == s.slots;
    } else {
      var front, x := order[..|order| - 1], order[|order| - 1];
      assert order == front + [x] && x in order;
      states', events' := LogAll(s, u, front, states, events);
      var s' := Acked(s, u, order);
      OneMoreLogged(s, u, front, x);
      PathSnoc(states', events', s', LogAckEvent(u, x));
      states', events' := states' + [s'], events' + [LogAckEvent(u, x)];
    }
  }

  lemma OneMoreLogged(s: Broker, u: nat, front: seq<string>, x: string)
    requires u in s.slots && s.slots[u].place.Sent? && x in s.slots[u].place.toAck && x !in front
    ensures LogAck(Acked(s, u, front), Acked(s, u, front + [x]), u, x)
  {
    var c, toAck := s.slots[u].copy, s.slots[u].place.toAck;
    W.AcksSnoc(c, front, x, |s.log| + 1);
    assert W.AsSet(front + [x]) == W.AsSet(front) + {x};
    assert toAck - W.AsSet(front) - {x} == toAck - W.AsSet(front + [x]);
    assert c.acked + W.AsSet(front) + {x} == c.acked + W.AsSet(front + [x]);
    assert |W.Acks(c, front, |s.log| + 1)| == |front|;
    var r := Record(|s.log| + 1 + |front|, c.queue, Op.Ack(c.id, x));
    assert s.log + W.Acks(c, front + [x], |s.log| + 1) == s.log + W.Acks(c, front, |s.log| + 1) + [r];
    hide W.Acks, W.AsSet;
  }

  /** The acks that cannot be logged. */
  lemma {:induction false} FailAll(s: Broker, u: nat, states: seq<Broker>, events: seq<Event>)
    returns (states': seq<Broker>, events': seq<Event>)
    requires u in s.slots && s.slots[u].place.Sent? && IsPath(states, events) && Last(states) == s
    ensures IsPath(states', events') && states <= states' && Last(states') == Moved(s, u, Sent({}), s.slots[u].copy)
    decreases s.slots[u].place.toAck
  {
    hide IsPath;
    var toAck := s.slots[u].place.toAck;
    if toAck == {} {
      states', events' := states, events;
      assert s.slots[u := s.slots[u]] == s.slots;
    } else {
      var x :| x in toAck;
      var s1 := Moved(s, u, Sent(toAck - {x}), s.slots[u].copy);
      PathSnoc(states, events, s1, AckFailsEvent(u, x));
      states', events' := FailAll(s1, u, states + [s1], events + [AckFailsEvent(u, x)]);
      assert s1.slots[u := Slot(Sent({}), s.slots[u].copy)] == s.slots[u := Slot(Sent({}), s.slots[u].copy)];
    }
  }

  /** The broker after one pass of ProcessMsg over the copy in slot u, as that method's contract has it. */
  function PassedBroker(s: Broker, u: nat, sent: seq<string>, accepting: set<string>, failing: set<string>,
                        order: seq<string>)
    : Broker
    requires u in s.slots
  {
    var c := s.slots[u].copy;
    var c' := W.Passed(c, accepting, failing);
    var s' := s.(log := s.log + W.Acks(c, order, |s.log| + 1), sends := s.sends + L.SendsOf(u, c, sent, accepting));
    if Pending(c') == {} then s'.(slots := s.slots - {u}) else Moved(s', u, InQueue, c')
  }

  /** One pass of ProcessMsg, with nothing in between, is a path of this machine: the sends, the acks that could be
      logged in the order in which they were, the others, and the end of the pass. */
  lemma PassIsPath(s: Broker, u: nat, sent: seq<string>, accepting: set<string>, failing: set<string>,
                   order: seq<string>)
    returns (states: seq<Broker>, events: seq<Event>)
    requires u in s.slots && s.slots[u].place.InQueue?
    requires W.Enumerates(sent, Pending(s.slots[u].copy))
    requires W.Enumerates(order, Finished(s.slots[u].copy, accepting) - failing)
    ensures IsPath(states, events) && states[0] == s
    ensures Last(states) == PassedBroker(s, u, sent, accepting, failing, order)
  {
    hide IsPath;
    var c := s.slots[u].copy;
    var s1 := Moved(s, u, Sent(Finished(c, accepting)), AfterSends(c, accepting))
              .(sends := s.sends + L.SendsOf(u, c, sent, accepting));
    EmptyPath(s);
    PathSnoc([s], [], s1, AttemptEvent(u, sent, accepting));
    states, events := [s] + [s1], [] + [AttemptEvent(u, sent, accepting)];
    states, events := LogAll(s1, u, order, states, events);
    var s2 := Last(states);
    states, events := FailAll(s2, u, states, events);
    var s3 := Last(states);
    var s' := PassedBroker(s, u, sent, accepting, failing, order);
    AckedInAll(s, s1, u, accepting, failing, order);
    PathSnoc(states, events, s', FinishEvent(u));
    states, events := states + [s'], events + [FinishEvent(u)];
  }

  lemma EmptyPath(s: Broker)
    ensures IsPath([s], []) && Last([s]) == s
  {
  }

  lemma AckedInAll(s: Broker, s1: Broker, u: nat, accepting: set<string>, failing: set<string>, order: seq<string>)
    requires u in s.slots && u in s1.slots && s1.slots[u].place.Sent?
    requires s1.slots[u].copy == AfterSends(s.slots[u].copy, accepting)
    requires W.Enumerates(order, Finished(s.slots[u].copy, accepting) - failing)
    ensures Acked(s1, u, order).slots[u].copy == W.Passed(s.slots[u].copy, accepting, failing)
    ensures W.Acks(s1.slots[u].copy, order, |s.log| + 1) == W.Acks(s.slots[u].copy, order, |s.log| + 1)
  {
    assert W.AsSet(order) == Finished(s.slots[u].copy, accepting) - failing;
  }
}
