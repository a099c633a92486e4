/**
  When a message that a term has delivered and forgotten is delivered again in
  the same term: exactly when it is scheduled from storage as it was while the
  log still owed the message to someone. A sweep that reads its storage after
  the message was forgotten never finds it.
 */
module Redelivery {
  import opened Storage
  import opened History
  import opened Worker
  import opened Leadership
  import opened Promotion
  import D = DeliverySafety

  /** A stored message is owed to someone. */
  lemma HeldIsOwed(log: seq<Command>, q: string, id: string) returns (sub: string)
    requires Holds(Run(EMPTY, log), q, id)
    ensures Owed(Run(EMPTY, log), q, id, sub)
  {
    RunKeepsInv(log);
    var m := MessageAt(Run(EMPTY, log), q, id);
    assert MessageOk(m, id, Run(EMPTY, log).nextSeq);
    sub :| sub in m.subList && sub !in m.acked;
  }

  /** Storage does not present a message again once it has dropped it: whoever finds it there looked earlier. */
  lemma HeldOnlyBefore(log: seq<Command>, c: nat, k: nat, e: int, q: string, id: string)
    requires FreshIds(log) && c <= |log| && k <= |log| && 0 <= e < c
    requires log[e].Enqueue? && log[e].queue == q && log[e].msgID == id
    requires !Holds(Run(EMPTY, log[..c]), q, id) && Holds(Run(EMPTY, log[..k]), q, id)
    ensures k < c
  {
    if c <= k {
      var sub := HeldIsOwed(log[..k], q, id);
      hide Run;
      var early, late := log[..c], log[..k];
      assert forall i :: 0 <= i < k ==> late[i] == log[i];
      var e' := OwedWasAddressed(late, late, q, id, sub);
      assert e' == e && early <= late && Addresses(early, e, q, id, sub);
      OwedNeverReturns(early, late, e, q, id, sub);
    }
  }

  /** What storage holds after k entries is what the log owed to someone then. */
  lemma HeldIffOpen(log: seq<Command>, q: string, id: string)
    requires FreshIds(log)
    ensures Holds(Run(EMPTY, log), q, id) <==> exists sub :: Open(log, q, id, sub)
  {
    hide Run;
    if Holds(Run(EMPTY, log), q, id) {
      var sub := HeldIsOwed(log, q, id);
      OwedMatchesLog(log, q, id, sub);
    }
    if sub :| Open(log, q, id, sub) {
      OwedMatchesLog(log, q, id, sub);
    }
  }

  lemma FreshPrefix(log: seq<Command>, k: nat)
    requires FreshIds(log) && k <= |log|
    ensures FreshIds(log[..k])
  {
    assert forall i :: 0 <= i < k ==> log[..k][i] == log[i];
  }

  /** A running node on which the id is not in flight can take it up from storage as it was after k entries. */
  ghost predicate Takes(s: Cluster, n: nat, k: nat, q: string, id: string) {
    exists s' :: Schedule(s, s', n, k, q, id) && n in s'.nodes && id in s'.nodes[n].inFlight
  }

  /** The exact condition for taking a message up: the log owed it to someone when storage was read. */
  lemma TakesIffOpen(states: seq<Cluster>, events: seq<Event>, m: nat, n: nat, k: nat, q: string, id: string)
    requires IsRun(states, events) && m < |states| && n in states[m].nodes && states[m].nodes[n].running
    requires id !in states[m].nodes[n].inFlight && k <= states[m].nodes[n].applied && k <= |states[m].log|
    ensures Takes(states[m], n, k, q, id) <==> exists sub :: Open(states[m].log[..k], q, id, sub)
  {
    var s := states[m];
    FreshInRun(states, events, m);
    FreshPrefix(s.log, k);
    HeldIffOpen(s.log[..k], q, id);
    hide IsRun, FreshIds, Open;
    if Holds(Run(EMPTY, s.log[..k]), q, id) {
      SendsAreOld(states, events, m);
      var s' := Taken(s, n, k, q, id);
      assert Schedule(s, s', n, k, q, id);
    }
  }

  /** The node after it took the message up. */
  lemma Taken(s: Cluster, n: nat, k: nat, q: string, id: string) returns (s': Cluster)
    requires n in s.nodes && s.nodes[n].running && id !in s.nodes[n].inFlight && k <= s.nodes[n].applied && k <= |s.log|
    requires Holds(Run(EMPTY, s.log[..k]), q, id) && forall j :: 0 <= j < |s.sends| ==> s.sends[j].uid < s.nextUid
    ensures Schedule(s, s', n, k, q, id) && n in s'.nodes && id in s'.nodes[n].inFlight
  {
    hide Run, Holds, Presented, D.CopyOk;
    var c := Presented(s.log, k, q, id);
    s' := s.(nodes := s.nodes[n := s.nodes[n].(inFlight := s.nodes[n].inFlight + {id})],
             slots := s.slots[s.nextUid := Slot(n, s.nodes[n].term, InQueue, c)],
             nextUid := s.nextUid + 1);
    D.PresentedIsOk(s.log, s.sends, s.nextUid, k, q, id);
  }

  lemma SendsAreOld(states: seq<Cluster>, events: seq<Event>, i: nat)
    requires IsRun(states, events) && i < |states|
    ensures forall j :: 0 <= j < |states[i].sends| ==> states[i].sends[j].uid < states[i].nextUid
  {
    hide D.SlotOk, D.OneCopy, D.Evidence, IsRun;
    D.RunKeeps(states, events, i);
  }

  /** The exact condition for the claim that no sweep can present a forgotten message again. The id has left the set of
      a node that kept running; at some later state a running node that does not have it in flight takes it up again
      from storage as it was after k entries if and only if the log owed the message to someone then. That storage is
      older than the forgetting: the log it had applied was shorter. */
  lemma RepresentedIffOwedWhenRead(states: seq<Cluster>, events: seq<Event>, n: nat, i: nat, u: nat, m: nat, n': nat,
                                   k: nat)
    requires Forgets(states, events, n, i, u) && i < m < |states| && n' in states[m].nodes
    requires states[m].nodes[n'].running
    requires states[i].slots[u].copy.id !in states[m].nodes[n'].inFlight
    requires k <= states[m].nodes[n'].applied && k <= |states[m].log|
    ensures
      var q, id := states[i].slots[u].copy.queue, states[i].slots[u].copy.id;
      && (Takes(states[m], n', k, q, id) <==> exists sub :: Open(states[m].log[..k], q, id, sub))
      && (Takes(states[m], n', k, q, id) ==> k < |states[i + 1].log|)
  {
    var q, id := states[i].slots[u].copy.queue, states[i].slots[u].copy.id;
    TakesIffOpen(states, events, m, n', k, q, id);
    hide IsRun, Open;
    if Takes(states[m], n', k, q, id) {
      ForgottenIsOlder(states, events, n, i, u, m, k);
    }
  }

  /** Slot u of node n's present term is done and its id leaves the set, at step i of the run. */
  ghost predicate Forgets(states: seq<Cluster>, events: seq<Event>, n: nat, i: nat, u: nat) {
    && IsRun(states, events) && i < |events| && Current(states[i], u, n)
    && n in states[i + 1].nodes && states[i + 1].nodes[n].running
    && states[i].slots[u].copy.id !in states[i + 1].nodes[n].inFlight
  }

  lemma ForgottenIsOlder(states: seq<Cluster>, events: seq<Event>, n: nat, i: nat, u: nat, m: nat, k: nat)
    requires Forgets(states, events, n, i, u) && i < m < |states| && k <= |states[m].log|
    requires Holds(Run(EMPTY, states[m].log[..k]), states[i].slots[u].copy.queue, states[i].slots[u].copy.id)
    ensures k < |states[i + 1].log|
  {
    var q, id := states[i].slots[u].copy.queue, states[i].slots[u].copy.id;
    var log, c := states[m].log, |states[i + 1].log|;
    RunGrows(states, events, i, i + 1);
    RunGrows(states, events, i + 1, m);
    assert log[..c] == states[i + 1].log;
    var e := CopyWasEnqueued(states, events, i, u);
    FreshInRun(states, events, m);
    NobodyOwed(states, events, n, i, u);
    HeldOnlyBefore(log, c, k, e, q, id);
  }

  /** So the claim holds of every sweep that reads after the forgetting: the worker's ack had been applied on its own
      node before, and that node's storage never has the message again. */
  lemma LaterSweepFindsNothing(states: seq<Cluster>, events: seq<Event>, n: nat, i: nat, u: nat, m: nat)
    requires Forgets(states, events, n, i, u) && i < m < |states|
    ensures n in states[m].nodes && states[m].nodes[n].applied <= |states[m].log|
    ensures !Holds(Run(EMPTY, states[m].log[..states[m].nodes[n].applied]),
                   states[i].slots[u].copy.queue, states[i].slots[u].copy.id)
  {
    RunGrows(states, events, i + 1, m);
    AppliedIsCommitted(states, events, m);
    AppliedWhenForgotten(states, events, n, i, u);
    hide Run, Holds, IsRun;
    if Holds(Run(EMPTY, states[m].log[..states[m].nodes[n].applied]),
             states[i].slots[u].copy.queue, states[i].slots[u].copy.id) {
      ForgottenIsOlder(states, events, n, i, u, m, states[m].nodes[n].applied);
    }
  }

  lemma AppliedWhenForgotten(states: seq<Cluster>, events: seq<Event>, n: nat, i: nat, u: nat)
    requires Forgets(states, events, n, i, u)
    ensures states[i + 1].nodes[n].applied == |states[i + 1].log|
  {
    var s, s', ev := states[i], states[i + 1], events[i];
    D.OneCopyPerTerm(states, events, i, n);
    var id := s.slots[u].copy.id;
    hide D.Inv;
    assert Next(s, s', ev);
    D.OnlySettleForgets(s, s', ev, n, id);
    CopyOwesSomeone(states, events, i, ev.u);
    hide IsRun, Next;
    SettlesSomeone(s, s', ev.u, ev.names, n);
  }

  lemma CopyOwesSomeone(states: seq<Cluster>, events: seq<Event>, i: nat, u: nat)
    requires IsRun(states, events) && i < |states| && u in states[i].slots
    ensures states[i].slots[u].copy.acked < states[i].slots[u].copy.subList.Keys
  {
    hide IsRun, D.OneCopy, D.Evidence, D.Justified;
    D.RunKeeps(states, events, i);
    assert D.SlotOk(states[i], u);
  }

  /** A copy that still owed someone is done only by settling someone. */
  lemma SettlesSomeone(s: Cluster, s': Cluster, u: nat, names: seq<string>, n: nat)
    requires Settle(s, s', u, names) && s.slots[u].node == n
    requires s.slots[u].copy.acked < s.slots[u].copy.subList.Keys
    requires Done(s.slots[u].copy.(acked := s.slots[u].copy.acked + s.slots[u].place.finished))
    ensures n in s'.nodes && s'.nodes[n].applied == |s'.log|
  {
    hide Done, Named;
    var c := s.slots[u].copy;
    if s.slots[u].place.finished == {} {
      assert c.(acked := c.acked + {}) == c by { assert c.acked + {} == c.acked; }
      DoneMeansNonePending(c);
    }
  }

  lemma FreshInRun(states: seq<Cluster>, events: seq<Event>, i: nat)
    requires IsRun(states, events) && i < |states|
    ensures FreshIds(states[i].log)
  {
    hide D.SlotOk, D.OneCopy, D.AckJustified;
    D.RunKeeps(states, events, i);
  }

  lemma CopyWasEnqueued(states: seq<Cluster>, events: seq<Event>, i: nat, u: nat) returns (e: int)
    requires IsRun(states, events) && i < |states| && u in states[i].slots
    ensures 0 <= e < |states[i].log| && states[i].log[e].Enqueue?
    ensures states[i].log[e].queue == states[i].slots[u].copy.queue
    ensures states[i].log[e].msgID == states[i].slots[u].copy.id
  {
    hide Next;
    D.MemoryFollowsLog(states, events, i, u, "");
    var x :| x in Pending(states[i].slots[u].copy);
    D.MemoryFollowsLog(states, events, i, u, x);
    e :| Addresses(states[i].log, e, states[i].slots[u].copy.queue, states[i].slots[u].copy.id, x);
  }

  lemma NobodyOwed(states: seq<Cluster>, events: seq<Event>, n: nat, i: nat, u: nat)
    requires IsRun(states, events) && i < |events| && Current(states[i], u, n)
    requires n in states[i + 1].nodes && states[i + 1].nodes[n].running
    requires states[i].slots[u].copy.id !in states[i + 1].nodes[n].inFlight
    ensures !Holds(Run(EMPTY, states[i + 1].log), states[i].slots[u].copy.queue, states[i].slots[u].copy.id)
  {
    hide Next;
    var q, id := states[i].slots[u].copy.queue, states[i].slots[u].copy.id;
    if Holds(Run(EMPTY, states[i + 1].log), q, id) {
      var sub := HeldIsOwed(states[i + 1].log, q, id);
      D.ForgottenMeansSettled(states, events, i, n, u, sub);
    }
  }

  // ---- And it happens ----

  function LogOf(q: string, id: string, subs: map<string, SubPolicy>): seq<Command> {
    [CreateQueue(q), Enqueue(q, id, "", subs)]
  }

  /** What storage holds after the message was enqueued. */
  lemma StoreOf(q: string, id: string, subs: map<string, SubPolicy>)
    requires subs != map[]
    ensures Holds(Run(EMPTY, LogOf(q, id, subs)), q, id)
    ensures MessageAt(Run(EMPTY, LogOf(q, id, subs)), q, id) == MessageState(0, id, "", subs, {})
  {
    var log := LogOf(q, id, subs);
    assert log[..1] == [CreateQueue(q)] && log[..1][..0] == [];
    assert Run(EMPTY, log[..1]) == Store(map[q := QueueState(q, map[], map[])], 0);
  }

  /** The events: a barrier, one delivery, settled and forgotten, and the schedule of a sweep that had read before. */
  function Twice(q: string, id: string, subs: map<string, SubPolicy>, sub: string): seq<Event> {
    [CommitEvent(CreateQueue(q)), CommitEvent(Enqueue(q, id, "", subs)), CatchUpEvent(0, 2), StartEvent(0),
     ScheduleEvent(0, 2, q, id), TakeEvent(0), AttemptEvent(0, [sub], {sub}), SettleEvent(0, [sub]),
     ScheduleEvent(0, 2, q, id), TakeEvent(1), AttemptEvent(1, [sub], {sub})]
  }

  /** The states of that run, one cluster of one node. */
  ghost function Stage(q: string, id: string, subs: map<string, SubPolicy>, sub: string, i: nat): Cluster
    requires i <= 11 && subs.Keys == {sub}
  {
    var c := Copy(q, id, "", subs, {}, map[]);
    var c' := AfterSends(c, {sub});
    var log := LogOf(q, id, subs) + if i >= 8 then [Ack(q, id, [sub])] else [];
    var applied := if i < 3 then 0 else if i < 8 then 2 else 3;
    var node := Node(applied, i >= 4, if i >= 4 then 1 else 0, if 5 <= i <= 7 || i >= 9 then {id} else {});
    var slots :=
      if i == 5 then map[0 := Slot(0, 1, InQueue, c)]
      else if i == 6 then map[0 := Slot(0, 1, InHand, c)]
      else if i == 7 then map[0 := Slot(0, 1, Sent({sub}), c')]
      else if i == 9 then map[1 := Slot(0, 1, InQueue, c)]
      else if i == 10 then map[1 := Slot(0, 1, InHand, c)]
      else if i == 11 then map[1 := Slot(0, 1, Sent({sub}), c')]
      else map[];
    var sends :=
      (if i >= 7 then [Send(0, q, id, "", sub, true)] else []) +
      if i == 11 then [Send(1, q, id, "", sub, true)] else [];
    var nextUid := if i >= 9 then 2 else if i >= 5 then 1 else 0;
    Cluster(if i < 2 then log[..i] else log, {}, map[0 := node], slots, nextUid, sends)
  }

  lemma CommitStages(q: string, id: string, subs: map<string, SubPolicy>, sub: string)
    requires subs.Keys == {sub}
    ensures Initial(Stage(q, id, subs, sub, 0))
    ensures Commit(Stage(q, id, subs, sub, 0), Stage(q, id, subs, sub, 1), CreateQueue(q))
    ensures Commit(Stage(q, id, subs, sub, 1), Stage(q, id, subs, sub, 2), Enqueue(q, id, "", subs))
    ensures CatchUp(Stage(q, id, subs, sub, 2), Stage(q, id, subs, sub, 3), 0, 2)
    ensures Start(Stage(q, id, subs, sub, 3), Stage(q, id, subs, sub, 4), 0)
  {
    hide AfterSends;
    var log := LogOf(q, id, subs);
    assert log[..0] == [] && log[..1] == [] + [CreateQueue(q)] && log == log[..1] + [Enqueue(q, id, "", subs)];
    assert log + [] == log;
  }

  lemma ScheduleStages(q: string, id: string, subs: map<string, SubPolicy>, sub: string)
    requires subs.Keys == {sub}
    ensures Schedule(Stage(q, id, subs, sub, 4), Stage(q, id, subs, sub, 5), 0, 2, q, id)
    ensures Schedule(Stage(q, id, subs, sub, 8), Stage(q, id, subs, sub, 9), 0, 2, q, id)
    ensures Take(Stage(q, id, subs, sub, 5), Stage(q, id, subs, sub, 6), 0)
    ensures Take(Stage(q, id, subs, sub, 9), Stage(q, id, subs, sub, 10), 1)
  {
    var log := LogOf(q, id, subs);
    assert sub in subs;
    StoreOf(q, id, subs);
    hide AfterSends, Run, Holds;
    assert (log + [])[..2] == log && (log + [Ack(q, id, [sub])])[..2] == log;
    assert Presented(log, 2, q, id) == Copy(q, id, "", subs, {}, map[]) by { assert log[..2] == log; }
    assert sub in Pending(Copy(q, id, "", subs, {}, map[]));
    assert log[..2] == log;
    assert Presented(log + [], 2, q, id) == Presented(log, 2, q, id);
    assert Presented(log + [Ack(q, id, [sub])], 2, q, id) == Presented(log, 2, q, id);
    assert {} + {id} == {id};
  }

  lemma AttemptFacts(q: string, id: string, subs: map<string, SubPolicy>, sub: string, u: nat)
    requires subs.Keys == {sub}
    ensures
      var c := Copy(q, id, "", subs, {}, map[]);
      && Pending(c) == {sub} && Finished(c, {sub}) == {sub} && (forall x :: x in [sub] <==> x in Pending(c))
      && SendsOf(u, c, [sub], {sub}) == [Send(u, q, id, "", sub, true)]
  {
  }

  lemma FirstAttempt(q: string, id: string, subs: map<string, SubPolicy>, sub: string)
    requires subs.Keys == {sub}
    ensures Attempt(Stage(q, id, subs, sub, 6), Stage(q, id, subs, sub, 7), 0, [sub], {sub})
  {
    hide AfterSends, Finished, Pending, SendsOf, LogOf;
    AttemptFacts(q, id, subs, sub, 0);
  }

  lemma SecondAttempt(q: string, id: string, subs: map<string, SubPolicy>, sub: string)
    requires subs.Keys == {sub}
    ensures Attempt(Stage(q, id, subs, sub, 10), Stage(q, id, subs, sub, 11), 1, [sub], {sub})
  {
    hide AfterSends, Finished, Pending, SendsOf, LogOf;
    AttemptFacts(q, id, subs, sub, 1);
  }

  lemma SettleStage(q: string, id: string, subs: map<string, SubPolicy>, sub: string)
    requires subs.Keys == {sub}
    ensures Settle(Stage(q, id, subs, sub, 7), Stage(q, id, subs, sub, 8), 0, [sub])
  {
    hide AfterSends, Done, Named;
    SettleFacts(q, id, subs, sub);
    var c' := AfterSends(Copy(q, id, "", subs, {}, map[]), {sub});
    var log := LogOf(q, id, subs);
    assert log + [] + [Ack(q, id, [sub])] == log + [Ack(q, id, [sub])];
    assert {id} - {id} == {} && map[0 := Slot(0, 1, Sent({sub}), c')] - {0} == map[];
  }

  lemma SettleFacts(q: string, id: string, subs: map<string, SubPolicy>, sub: string)
    requires subs.Keys == {sub}
    ensures
      var c' := AfterSends(Copy(q, id, "", subs, {}, map[]), {sub});
      && c'.queue == q && c'.id == id && c'.acked == {} && Done(c'.(acked := c'.acked + {sub}))
      && Named([sub]) == {sub}
  {
    var c' := AfterSends(Copy(q, id, "", subs, {}, map[]), {sub});
    DoneMeansNonePending(c'.(acked := c'.acked + {sub}));
    assert Pending(c'.(acked := c'.acked + {sub})) == {};
  }

  /** A run of one leader, never demoted, in which a subscriber that accepted the message gets it a second time. The
      second schedule is of what storage held in state 7, when the leader had applied two entries; when it is made, in
      state 8, the leader has applied the settling ack and forgotten the message. */
  lemma StaleSweepDeliversTwice(q: string, id: string, subs: map<string, SubPolicy>, sub: string)
    returns (states: seq<Cluster>)
    requires subs.Keys == {sub}
    ensures IsRun(states, Twice(q, id, subs, sub))
    ensures forall i :: 4 <= i < |states| ==> 0 in states[i].nodes && states[i].nodes[0].running
    ensures states[7].nodes[0].applied == 2 && states[8].nodes[0].applied == |states[8].log| == 3
    ensures id in states[7].nodes[0].inFlight && id !in states[8].nodes[0].inFlight
    ensures states[11].sends == [Send(0, q, id, "", sub, true), Send(1, q, id, "", sub, true)]
  {
    hide Stage, Commit, CatchUp, Start, Schedule, Take, Attempt, Settle, Initial;
    states := seq(12, i requires 0 <= i < 12 => Stage(q, id, subs, sub, i));
    CommitStages(q, id, subs, sub);
    ScheduleStages(q, id, subs, sub);
    FirstAttempt(q, id, subs, sub);
    SecondAttempt(q, id, subs, sub);
    SettleStage(q, id, subs, sub);
    StageFacts(q, id, subs, sub);
    var events := Twice(q, id, subs, sub);
    forall i | 0 <= i < |events| ensures Next(states[i], states[i + 1], events[i]) {
      if i == 0 {} else if i == 1 {} else if i == 2 {} else if i == 3 {} else if i == 4 {}
      else if i == 5 {} else if i == 6 {} else if i == 7 {} else if i == 8 {} else if i == 9 {} else {}
    }
  }

  lemma StageFacts(q: string, id: string, subs: map<string, SubPolicy>, sub: string)
    requires subs.Keys == {sub}
    ensures forall i: nat :: 4 <= i <= 11 ==>
              0 in Stage(q, id, subs, sub, i).nodes && Stage(q, id, subs, sub, i).nodes[0].running
    ensures Stage(q, id, subs, sub, 7).nodes[0].applied == 2 && id in Stage(q, id, subs, sub, 7).nodes[0].inFlight
    ensures
      var s := Stage(q, id, subs, sub, 8);
      s.nodes[0].applied == |s.log| == 3 && id !in s.nodes[0].inFlight
    ensures Stage(q, id, subs, sub, 11).sends == [Send(0, q, id, "", sub, true), Send(1, q, id, "", sub, true)]
  {
  }
}
