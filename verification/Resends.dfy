/**
  Whom a copy is sent to: only subscribers to whom the log owed the message when
  the copy was read from storage. A failover does not send again to a subscriber
  whose ack the new leader had applied.
 */
module Resends {
  import opened Storage
  import opened History
  import opened Worker
  import opened Leadership
  import opened Redelivery

  /** A copy read from storage is pending for exactly those to whom the log owed the message then, and has no failures
      counted. */
  lemma PresentedOwes(log: seq<Command>, k: nat, q: string, id: string, sub: string)
    requires FreshIds(log) && k <= |log| && Holds(Run(EMPTY, log[..k]), q, id)
    ensures sub in Pending(Presented(log, k, q, id)) <==> Open(log[..k], q, id, sub)
    ensures Tries(Presented(log, k, q, id), sub) == 0
  {
    hide Run;
    FreshPrefix(log, k);
    OwedMatchesLog(log[..k], q, id, sub);
  }

  /** Whatever was, is or will be sent from copy u is this message, to someone in `subs`. */
  ghost predicate OnlyTo(s: Cluster, u: nat, q: string, id: string, subs: set<string>) {
    && u < s.nextUid
    && (u in s.slots ==>
          s.slots[u].copy.queue == q && s.slots[u].copy.id == id && Pending(s.slots[u].copy) <= subs)
    && forall x :: 0 <= x < |s.sends| && s.sends[x].uid == u ==>
         s.sends[x].queue == q && s.sends[x].id == id && s.sends[x].sub in subs
  }

  lemma AttemptOnlyTo(s: Cluster, s': Cluster, v: nat, order: seq<string>, ok: set<string>, u: nat, q: string,
                      id: string, subs: set<string>)
    requires Attempt(s, s', v, order, ok) && OnlyTo(s, u, q, id, subs)
    ensures OnlyTo(s', u, q, id, subs)
  {
    hide Finished;
    var c := s.slots[v].copy;
    var sent := AfterSends(c, ok);
    assert sent.queue == c.queue && sent.id == c.id && Pending(sent) == Pending(c);
    hide AfterSends;
    var more := SendsOf(v, c, order, ok);
    forall x | 0 <= x < |s'.sends| && s'.sends[x].uid == u
      ensures s'.sends[x].queue == q && s'.sends[x].id == id && s'.sends[x].sub in subs
    {
      if x >= |s.sends| { assert s'.sends[x] == more[x - |s.sends|] && order[x - |s.sends|] in order; }
    }
  }

  lemma NextOnlyTo(s: Cluster, s': Cluster, ev: Event, u: nat, q: string, id: string, subs: set<string>)
    requires Next(s, s', ev) && OnlyTo(s, u, q, id, subs)
    ensures OnlyTo(s', u, q, id, subs)
  {
    hide Run, Holds, Presented, SendsOf, AfterSends, Finished, Named, Done;
    if ev.AttemptEvent? { AttemptOnlyTo(s, s', ev.u, ev.order, ev.ok, u, q, id, subs); }
  }

  lemma {:induction false} RunOnlyTo(states: seq<Cluster>, events: seq<Event>, i: nat, j: nat, u: nat, q: string,
                                     id: string, subs: set<string>)
    requires IsRun(states, events) && i <= j < |states| && OnlyTo(states[i], u, q, id, subs)
    ensures OnlyTo(states[j], u, q, id, subs)
    decreases j - i
  {
    hide Next, OnlyTo;
    if i < j {
      RunOnlyTo(states, events, i, j - 1, u, q, id, subs);
      NextOnlyTo(states[j - 1], states[j], events[j - 1], u, q, id, subs);
    }
  }

  lemma ScheduledOnlyTo(s: Cluster, s': Cluster, n: nat, k: nat, q: string, id: string)
    requires Schedule(s, s', n, k, q, id) && s'.nextUid > s.nextUid
    requires forall x :: 0 <= x < |s.sends| ==> s.sends[x].uid < s.nextUid
    ensures OnlyTo(s', s.nextUid, q, id, Pending(Presented(s.log, k, q, id)))
  {
    hide Run, Holds;
    PresentedNames(s.log, k, q, id);
  }

  lemma PresentedNames(log: seq<Command>, k: nat, q: string, id: string)
    requires k <= |log| && Holds(Run(EMPTY, log[..k]), q, id)
    ensures Presented(log, k, q, id).queue == q && Presented(log, k, q, id).id == id
  {
    var _ := HeldWasEnqueued(log[..k], q, id);
  }

  /** Every send, in every run: the copy it was made from was taken up from storage as it was after k entries, and
      the log owed the message to that subscriber then. In particular those entries hold no later ack of it. */
  lemma SentOnlyIfOwedWhenRead(states: seq<Cluster>, events: seq<Event>, m: nat, j: nat, x: nat)
    requires IsRun(states, events) && m < j < |states| && events[m].ScheduleEvent?
    requires states[m + 1].nextUid > states[m].nextUid
    requires x < |states[j].sends| && states[j].sends[x].uid == states[m].nextUid
    ensures
      var ev, send := events[m], states[j].sends[x];
      && send.queue == ev.q && send.id == ev.id && ev.k <= |states[m].log|
      && Open(states[m].log[..ev.k], ev.q, ev.id, send.sub)
  {
    var s, s', ev := states[m], states[m + 1], events[m];
    assert Next(s, s', ev);
    FreshInRun(states, events, m);
    SendsAreOld(states, events, m);
    ScheduledOnlyTo(s, s', ev.n, ev.k, ev.q, ev.id);
    RunOnlyTo(states, events, m + 1, j, s.nextUid, ev.q, ev.id, Pending(Presented(s.log, ev.k, ev.q, ev.id)));
    hide IsRun, Open, FreshIds, Run;
    PresentedOwes(s.log, ev.k, ev.q, ev.id, states[j].sends[x].sub);
  }

  // ---- What is sent ----

  /** Command i enqueues what is sent here, addressed to this subscriber among others. */
  ghost predicate Ships(log: seq<Command>, i: int, send: Send) {
    Addresses(log, i, send.queue, send.id, send.sub) && log[i].payload == send.payload
  }

  ghost predicate Shipped(log: seq<Command>, send: Send) {
    exists i :: Ships(log, i, send)
  }

  /** The log enqueues what the copy is a copy of. */
  ghost predicate Made(log: seq<Command>, c: Copy) {
    Enqueue(c.queue, c.id, c.payload, c.subList) in log
  }

  ghost predicate AllShipped(s: Cluster) {
    && (forall u :: u in s.slots ==> Made(s.log, s.slots[u].copy))
    && (forall x :: 0 <= x < |s.sends| ==> Shipped(s.log, s.sends[x]))
  }

  lemma PresentedIsMade(log: seq<Command>, k: nat, q: string, id: string)
    requires k <= |log| && Holds(Run(EMPTY, log[..k]), q, id)
    ensures Made(log, Presented(log, k, q, id))
  {
    var i := HeldWasEnqueued(log[..k], q, id);
    assert log[..k][i] == log[i];
  }

  lemma MoreIsShipped(log: seq<Command>, c: Command, send: Send)
    requires Shipped(log, send)
    ensures Shipped(log + [c], send)
  {
    var i :| Ships(log, i, send);
    assert (log + [c])[i] == log[i] && Ships(log + [c], i, send);
  }

  lemma MadeIsShipped(log: seq<Command>, u: nat, c: Copy, order: seq<string>, ok: set<string>, x: nat)
    requires Made(log, c) && (forall sub :: sub in order <==> sub in Pending(c)) && x < |order|
    ensures Shipped(log, SendsOf(u, c, order, ok)[x])
  {
    var i :| 0 <= i < |log| && log[i] == Enqueue(c.queue, c.id, c.payload, c.subList);
    assert order[x] in order;
    assert Ships(log, i, SendsOf(u, c, order, ok)[x]);
  }

  lemma AttemptShips(s: Cluster, s': Cluster, u: nat, order: seq<string>, ok: set<string>)
    requires Attempt(s, s', u, order, ok) && AllShipped(s)
    ensures AllShipped(s')
  {
    var c := s.slots[u].copy;
    var sent, more := AfterSends(c, ok), SendsOf(u, c, order, ok);
    assert Made(s.log, sent);
    forall x | 0 <= x < |s'.sends| ensures Shipped(s'.log, s'.sends[x]) {
      if x >= |s.sends| {
        MadeIsShipped(s.log, u, c, order, ok, x - |s.sends|);
        assert s'.sends[x] == more[x - |s.sends|];
      }
    }
  }

  lemma NextShips(s: Cluster, s': Cluster, ev: Event)
    requires Next(s, s', ev) && AllShipped(s)
    ensures AllShipped(s')
  {
    hide Run, Holds, Presented, Attempt, SendsOf, AfterSends, Finished, Named, Done, Shipped;
    if ev.AttemptEvent? {
      AttemptShips(s, s', ev.u, ev.order, ev.ok);
    } else {
      if ev.ScheduleEvent? { PresentedIsMade(s.log, ev.k, ev.q, ev.id); }
      forall x | 0 <= x < |s.sends| ensures Shipped(s'.log, s.sends[x]) {
        if s'.log != s.log { MoreIsShipped(s.log, s'.log[|s.log|], s.sends[x]); }
      }
    }
  }

  lemma {:induction false} RunShips(states: seq<Cluster>, events: seq<Event>, j: nat)
    requires IsRun(states, events) && j < |states|
    ensures AllShipped(states[j])
    decreases j
  {
    if j > 0 {
      RunShips(states, events, j - 1);
      hide Next, AllShipped;
      NextShips(states[j - 1], states[j], events[j - 1]);
    }
  }

  /** In every run, whatever is sent is what the log enqueued under that id on that queue, and goes to a subscriber that
      the message was addressed to. */
  lemma SentAsEnqueued(states: seq<Cluster>, events: seq<Event>, j: nat, x: nat)
    requires IsRun(states, events) && j < |states| && x < |states[j].sends|
    ensures exists i :: Ships(states[j].log, i, states[j].sends[x])
  {
    RunShips(states, events, j);
    hide IsRun;
    assert Shipped(states[j].log, states[j].sends[x]);
  }
}
