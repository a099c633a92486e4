/**
  The cluster as a state machine: one committed log, the nodes that apply it,
  and the leader-local delivery machinery that comes and goes with leadership.
  `sends` records every delivery attempt ever made.
 */
module Leadership {
  import opened Storage
  import opened History
  import opened Worker

  /** `term` counts this node's own promotions; `inFlight` is the manager's dedupe set. */
  datatype Node = Node(applied: nat, running: bool, term: nat, inFlight: set<string>)

  /** Where a copy is: in a queue, with a worker, or with a worker that has all send results. */
  datatype Place = InQueue | InHand | Sent(finished: set<string>)

  /** A copy of a message made by `node` in its term `term`. */
  datatype Slot = Slot(node: nat, term: nat, place: Place, copy: Copy)

  /** One attempt to deliver to `sub`, from copy `uid`. */
  datatype Send = Send(uid: nat, queue: string, id: string, payload: string, sub: string, ok: bool)

  /** `proposed` are acks whose proposer got an error: they may yet commit. */
  datatype Cluster = Cluster(
    log: seq<Command>, proposed: set<Command>, nodes: map<nat, Node>, slots: map<nat, Slot>, nextUid: nat,
    sends: seq<Send>)

  /** Node n is running, and slot u belongs to its present term. */
  predicate Current(s: Cluster, u: nat, n: nat) {
    u in s.slots && n in s.nodes && s.slots[u].node == n && s.nodes[n].running && s.slots[u].term == s.nodes[n].term
  }

  // ---- Steps ----

  /** A client's command commits; ids are fresh UUIDs. */
  ghost predicate Commit(s: Cluster, s': Cluster, c: Command) {
    && !c.Ack?
    && (c.Enqueue? ==>
          forall i :: 0 <= i < |s.log| && s.log[i].Enqueue? ==>
            s.log[i].queue != c.queue || s.log[i].msgID != c.msgID)
    && s' == s.(log := s.log + [c])
  }

  ghost predicate CommitLate(s: Cluster, s': Cluster, c: Command) {
    c in s.proposed && s' == s.(log := s.log + [c])
  }

  /** A node applies the next entry, or waits for the barrier and has applied them all. */
  ghost predicate CatchUp(s: Cluster, s': Cluster, n: nat, upTo: nat) {
    && n in s.nodes && s.nodes[n].applied <= upTo <= |s.log|
    && s' == s.(nodes := s.nodes[n := s.nodes[n].(applied := upTo)])
  }

  /** demote: close the stop channel and throw queues and dedupe set away. */
  ghost predicate Demote(s: Cluster, s': Cluster, n: nat) {
    && n in s.nodes && s.nodes[n].running
    && s' == s.(nodes := s.nodes[n := s.nodes[n].(running := false, inFlight := {})],
                slots := map u | u in s.slots && !(s.slots[u].node == n && s.slots[u].place.InQueue?) :: s.slots[u])
  }

  /** promote, after its demote and barrier: a new stop channel, that is a new term. */
  ghost predicate Start(s: Cluster, s': Cluster, n: nat) {
    && n in s.nodes && !s.nodes[n].running
    && s' == s.(nodes := s.nodes[n := s.nodes[n].(running := true, term := s.nodes[n].term + 1)])
  }

  /** A message as a node's storage presented it when that had applied k entries, perhaps long ago. */
  function Presented(log: seq<Command>, k: nat, q: string, id: string): Copy
    requires k <= |log| && Holds(Run(EMPTY, log[..k]), q, id)
  {
    CopyOf(q, MessageAt(Run(EMPTY, log[..k]), q, id))
  }

  /** Schedule, of a message that the node's own storage presented at some time: as the answer to its enqueue or to a
      sweep. It drops what it should not act on: not leading, already scheduled, owed to nobody. */
  ghost predicate Schedule(s: Cluster, s': Cluster, n: nat, k: nat, q: string, id: string) {
    && n in s.nodes && k <= s.nodes[n].applied && k <= |s.log| && Holds(Run(EMPTY, s.log[..k]), q, id)
    && var c := Presented(s.log, k, q, id);
    if !s.nodes[n].running || id in s.nodes[n].inFlight || Pending(c) == {} then s' == s
    else s' == s.(nodes := s.nodes[n := s.nodes[n].(inFlight := s.nodes[n].inFlight + {id})],
                  slots := s.slots[s.nextUid := Slot(n, s.nodes[n].term, InQueue, c)],
                  nextUid := s.nextUid + 1)
  }

  function Moved(s: Cluster, u: nat, place: Place, copy: Copy): Cluster
    requires u in s.slots
  {
    s.(slots := s.slots[u := s.slots[u].(place := place, copy := copy)])
  }

  ghost predicate Take(s: Cluster, s': Cluster, u: nat) {
    && u in s.slots && s.slots[u].place.InQueue? && Current(s, u, s.slots[u].node)
    && s' == Moved(s, u, InHand, s.slots[u].copy)
  }

  function SendsOf(u: nat, c: Copy, order: seq<string>, ok: set<string>): seq<Send> {
    seq(|order|, i requires 0 <= i < |order| => Send(u, c.queue, c.id, c.payload, order[i], order[i] in ok))
  }

  /** The sends to all pending subscribers; a demotion meanwhile does not stop them. */
  ghost predicate Attempt(s: Cluster, s': Cluster, u: nat, order: seq<string>, ok: set<string>) {
    && u in s.slots && s.slots[u].place.InHand?
    && var c := s.slots[u].copy;
    && (forall i, j :: 0 <= i < j < |order| ==> order[i] != order[j]) && (forall x :: x in order <==> x in Pending(c))
    && s' == Moved(s, u, Sent(Finished(c, ok)), AfterSends(c, ok)).(sends := s.sends + SendsOf(u, c, order, ok))
  }

  /** Demoted mid-request: the copy and its results are dropped. */
  ghost predicate Abandon(s: Cluster, s': Cluster, u: nat) {
    && u in s.slots && s.slots[u].place.Sent? && !Current(s, u, s.slots[u].node)
    && s' == s.(slots := s.slots - {u})
  }

  /** The ack of slot u is committed. The call returns when the node itself has applied the entry. */
  function Acknowledged(s: Cluster, u: nat, names: seq<string>): Cluster
    requires u in s.slots && s.slots[u].node in s.nodes
  {
    var c, n := s.slots[u].copy, s.slots[u].node;
    s.(log := s.log + [Ack(c.queue, c.id, names)], nodes := s.nodes[n := s.nodes[n].(applied := |s.log| + 1)])
  }

  /** The copy takes the settled subscribers; it goes back to its queue, or is done and forgotten. */
  function Finish(s: Cluster, u: nat, f: set<string>): Cluster
    requires u in s.slots && s.slots[u].node in s.nodes
  {
    var c, n := s.slots[u].copy, s.slots[u].node;
    var c' := c.(acked := c.acked + f);
    if Done(c')
    then s.(slots := s.slots - {u}, nodes := s.nodes[n := s.nodes[n].(inFlight := s.nodes[n].inFlight - {c.id})])
    else Moved(s, u, InQueue, c')
  }

  /** The rest of Process when the ack commits, or when there is nothing to ack. */
  ghost predicate Settle(s: Cluster, s': Cluster, u: nat, names: seq<string>) {
    && u in s.slots && s.slots[u].place.Sent? && Current(s, u, s.slots[u].node)
    && var f := s.slots[u].place.finished;
    && Named(names) == f
    && s' == Finish(if f == {} then s else Acknowledged(s, u, names), u, f)
  }

  /** The ack call fails: the message is requeued, and the command may still commit later. */
  ghost predicate AckFails(s: Cluster, s': Cluster, u: nat, names: seq<string>) {
    && u in s.slots && s.slots[u].place.Sent? && Current(s, u, s.slots[u].node)
    && var c, f := s.slots[u].copy, s.slots[u].place.finished;
    && f != {} && Named(names) == f
    && s' == Moved(s, u, InQueue, c).(proposed := s.proposed + {Ack(c.queue, c.id, names)})
  }

  datatype Event =
    | CommitEvent(c: Command)
    | CommitLateEvent(c: Command)
    | CatchUpEvent(n: nat, upTo: nat)
    | DemoteEvent(n: nat)
    | StartEvent(n: nat)
    | ScheduleEvent(n: nat, k: nat, q: string, id: string)
    | TakeEvent(u: nat)
    | AttemptEvent(u: nat, order: seq<string>, ok: set<string>)
    | AbandonEvent(u: nat)
    | SettleEvent(u: nat, names: seq<string>)
    | AckFailsEvent(u: nat, names: seq<string>)

  ghost predicate Next(s: Cluster, s': Cluster, ev: Event) {
    match ev
    case CommitEvent(c) => Commit(s, s', c)
    case CommitLateEvent(c) => CommitLate(s, s', c)
    case CatchUpEvent(n, upTo) => CatchUp(s, s', n, upTo)
    case DemoteEvent(n) => Demote(s, s', n)
    case StartEvent(n) => Start(s, s', n)
    case ScheduleEvent(n, k, q, id) => Schedule(s, s', n, k, q, id)
    case TakeEvent(u) => Take(s, s', u)
    case AttemptEvent(u, order, ok) => Attempt(s, s', u, order, ok)
    case AbandonEvent(u) => Abandon(s, s', u)
    case SettleEvent(u, names) => Settle(s, s', u, names)
    case AckFailsEvent(u, names) => AckFails(s, s', u, names)
  }

  ghost predicate Initial(s: Cluster) {
    && s.log == [] && s.proposed == {} && s.slots == map[] && s.nextUid == 0 && s.sends == []
    && forall n :: n in s.nodes ==> s.nodes[n] == Node(0, false, 0, {})
  }

  ghost predicate IsRun(states: seq<Cluster>, events: seq<Event>) {
    && |states| == |events| + 1 && Initial(states[0])
    && forall i :: 0 <= i < |events| ==> Next(states[i], states[i + 1], events[i])
  }

  // ---- Evidence in the record of sends ----

  /** The message reached this subscriber. */
  ghost predicate Delivered(sends: seq<Send>, q: string, id: string, sub: string) {
    exists k :: 0 <= k < |sends| && sends[k].queue == q && sends[k].id == id && sends[k].sub == sub && sends[k].ok
  }

  /** How often copy u of the message failed to reach this subscriber. */
  function Failures(sends: seq<Send>, u: nat, q: string, id: string, sub: string): nat {
    if sends == [] then 0
    else
      var last := sends[|sends| - 1];
      Failures(sends[..|sends| - 1], u, q, id, sub) +
      if last.uid == u && last.queue == q && last.id == id && last.sub == sub && !last.ok then 1 else 0
  }

  /** One copy, made in one term, used up all attempts that the enqueued policy allows. */
  ghost predicate Exhausted(log: seq<Command>, sends: seq<Send>, q: string, id: string, sub: string) {
    exists i, u :: Addresses(log, i, q, id, sub) && Failures(sends, u, q, id, sub) >= Attempts(log[i].subList[sub])
  }

  lemma {:induction false} FailuresConcat(a: seq<Send>, b: seq<Send>, u: nat, q: string, id: string, sub: string)
    ensures Failures(a + b, u, q, id, sub) == Failures(a, u, q, id, sub) + Failures(b, u, q, id, sub)
    decreases |b|
  {
    if b == [] {
      assert a + b == a;
    } else {
      assert (a + b)[..|a + b| - 1] == a + b[..|b| - 1];
      FailuresConcat(a, b[..|b| - 1], u, q, id, sub);
    }
  }

  /** What one round of sends adds to the count. */
  lemma {:induction false} FailuresOfRound(u: nat, c: Copy, order: seq<string>, ok: set<string>, u': nat, q: string,
                                           id: string, sub: string)
    requires forall i, j :: 0 <= i < j < |order| ==> order[i] != order[j]
    ensures Failures(SendsOf(u, c, order, ok), u', q, id, sub) ==
            if u' == u && q == c.queue && id == c.id && sub in order && sub !in ok then 1 else 0
    decreases |order|
  {
    if order != [] {
      var n := |order| - 1;
      assert SendsOf(u, c, order, ok)[..n] == SendsOf(u, c, order[..n], ok);
      assert order == order[..n] + [order[n]];
      FailuresOfRound(u, c, order[..n], ok, u', q, id, sub);
    }
  }
}
