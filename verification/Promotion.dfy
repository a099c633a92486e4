/**
  What a promotion picks up: after the barrier and a finished sweep, everything
  the committed log owed at the barrier is in flight on the new leader, for as
  long as it is owed.
 */
module Promotion {
  import opened Storage
  import opened History
  import opened Worker
  import opened Leadership
  import D = DeliverySafety

  // ---- Logs and applied prefixes only grow ----

  lemma NextGrows(s: Cluster, s': Cluster, ev: Event)
    requires Next(s, s', ev) && forall n :: n in s.nodes ==> s.nodes[n].applied <= |s.log|
    ensures s.log <= s'.log && s'.nodes.Keys == s.nodes.Keys
    ensures forall n :: n in s.nodes ==> s.nodes[n].applied <= s'.nodes[n].applied
  {
    hide Holds, Run, Presented, SendsOf, AfterSends, Finished, Named, Pending, Done;
  }

  lemma {:induction false} RunGrows(states: seq<Cluster>, events: seq<Event>, i: nat, j: nat)
    requires IsRun(states, events) && i <= j < |states|
    ensures states[i].log <= states[j].log && states[j].nodes.Keys == states[i].nodes.Keys
    ensures forall n :: n in states[i].nodes ==> states[i].nodes[n].applied <= states[j].nodes[n].applied
    decreases j - i
  {
    hide Next;
    if i < j {
      RunGrows(states, events, i, j - 1);
      AppliedIsCommitted(states, events, j - 1);
      NextGrows(states[j - 1], states[j], events[j - 1]);
    }
  }

  lemma NextApplies(s: Cluster, s': Cluster, ev: Event)
    requires Next(s, s', ev) && forall n :: n in s.nodes ==> s.nodes[n].applied <= |s.log|
    ensures forall n :: n in s'.nodes ==> s'.nodes[n].applied <= |s'.log|
  {
    hide Holds, Run, Presented, SendsOf, AfterSends, Finished, Named, Pending, Done;
  }

  /** No node has applied what is not committed. */
  lemma {:induction false} AppliedIsCommitted(states: seq<Cluster>, events: seq<Event>, i: nat)
    requires IsRun(states, events) && i < |states|
    ensures forall n :: n in states[i].nodes ==> states[i].nodes[n].applied <= |states[i].log|
  {
    hide Next;
    if i > 0 {
      AppliedIsCommitted(states, events, i - 1);
      NextApplies(states[i - 1], states[i], events[i - 1]);
    }
  }

  // ---- What is settled stays settled ----

  lemma OpenShrinks(log: seq<Command>, log': seq<Command>, e: int, q: string, id: string, sub: string)
    requires log <= log' && e < |log| && OpenSince(log', e, q, id, sub)
    ensures OpenSince(log, e, q, id, sub)
  {
    assert Addresses(log, e, q, id, sub);
    var c :| c < e && Creates(log', c, q) && forall d :: c < d < e ==> !Deletes(log', d, q);
    assert Creates(log, c, q);
    forall d | c < d < e ensures !Deletes(log, d, q) { assert !Deletes(log', d, q); }
    assert LiveAt(log, e, q);
    forall j | e < j < |log| ensures !Deletes(log, j, q) && !Settles(log, j, q, id, sub) {
      assert !Deletes(log', j, q) && !Settles(log', j, q, id, sub);
    }
  }

  lemma OwedNeverReturns(log: seq<Command>, log': seq<Command>, e: int, q: string, id: string, sub: string)
    requires FreshIds(log') && log <= log' && Addresses(log, e, q, id, sub) && !Owed(Run(EMPTY, log), q, id, sub)
    ensures !Owed(Run(EMPTY, log'), q, id, sub)
  {
    hide Run, Owed;
    assert FreshIds(log) by { assert forall i :: 0 <= i < |log| ==> log'[i] == log[i]; }
    OwedMatchesLog(log, q, id, sub);
    OwedMatchesLog(log', q, id, sub);
    if Open(log', q, id, sub) {
      var i :| OpenSince(log', i, q, id, sub);
      assert log'[e] == log[e] && i == e;
      OpenShrinks(log, log', e, q, id, sub);
    }
  }

  // ---- A sweep ----

  /** No id was ever enqueued twice, on any queue. */
  ghost predicate UniqueIds(log: seq<Command>) {
    forall i, j :: 0 <= i < j < |log| && log[i].Enqueue? && log[j].Enqueue? ==> log[i].msgID != log[j].msgID
  }

  /** At state m the sweep of node n read queue q from its store, and what it found it scheduled before state j. */
  ghost predicate SweepsQueue(states: seq<Cluster>, events: seq<Event>, n: nat, q: string, m: nat, j: nat)
    requires |states| == |events| + 1 && m <= j < |states|
  {
    && n in states[m].nodes
    && var a := states[m].nodes[n].applied;
    && a <= |states[m].log|
    && forall id :: Holds(Run(EMPTY, states[m].log[..a]), q, id) ==>
         exists m' :: m <= m' < j && events[m'] == ScheduleEvent(n, a, q, id)
  }

  /** Node n is running in all states from i to j. */
  ghost predicate Leads(states: seq<Cluster>, n: nat, i: nat, j: nat) {
    forall x :: i <= x <= j && x < |states| ==> n in states[x].nodes && states[x].nodes[n].running
  }

  lemma ScheduledIsInFlight(s: Cluster, s': Cluster, n: nat, k: nat, q: string, id: string)
    requires Schedule(s, s', n, k, q, id) && s.nodes[n].running
    requires forall j :: 0 <= j < |s.sends| ==> s.sends[j].uid < s.nextUid
    ensures n in s'.nodes && id in s'.nodes[n].inFlight
  {
    hide Run, Holds, Presented, D.CopyOk;
    D.PresentedIsOk(s.log, s.sends, s.nextUid, k, q, id);
  }

  /** Once in flight, it stays so for as long as it is owed. */
  lemma {:induction false} StaysInFlight(states: seq<Cluster>, events: seq<Event>, n: nat, i: nat, j: nat, q: string,
                                         id: string, sub: string, e: int)
    requires IsRun(states, events) && i <= j < |states| && Leads(states, n, i, j) && id in states[i].nodes[n].inFlight
    requires UniqueIds(states[j].log) && Addresses(states[i].log, e, q, id, sub)
    ensures id in states[j].nodes[n].inFlight || !Owed(Run(EMPTY, states[j].log), q, id, sub)
    decreases j - i
  {
    hide Next, Owed, Run, D.Inv;
    if i < j {
      RunGrows(states, events, j - 1, j);
      UniquePrefix(states[j - 1].log, states[j].log);
      StaysInFlight(states, events, n, i, j - 1, q, id, sub, e);
      RunGrows(states, events, i, j - 1);
      assert Addresses(states[j - 1].log, e, q, id, sub);
      if id in states[j - 1].nodes[n].inFlight {
        if id !in states[j].nodes[n].inFlight {
          LeftMeansSettled(states, events, n, j - 1, q, id, sub, e);
        }
      } else {
        UniqueIsFresh(states[j].log);
        OwedNeverReturns(states[j - 1].log, states[j].log, e, q, id, sub);
      }
    }
  }

  lemma UniquePrefix(log: seq<Command>, log': seq<Command>)
    requires log <= log' && UniqueIds(log')
    ensures UniqueIds(log)
  {
    assert forall i :: 0 <= i < |log| ==> log'[i] == log[i];
  }

  lemma UniqueIsFresh(log: seq<Command>)
    requires UniqueIds(log)
    ensures FreshIds(log)
  {
  }

  lemma LeftMeansSettled(states: seq<Cluster>, events: seq<Event>, n: nat, i: nat, q: string, id: string, sub: string,
                         e: int)
    requires IsRun(states, events) && i < |events| && Leads(states, n, i, i + 1)
    requires id in states[i].nodes[n].inFlight && id !in states[i + 1].nodes[n].inFlight
    requires UniqueIds(states[i].log) && Addresses(states[i].log, e, q, id, sub)
    ensures !Owed(Run(EMPTY, states[i + 1].log), q, id, sub)
  {
    hide Next, Owed, Run;
    var s := states[i];
    D.OneCopyPerTerm(states, events, i, n);
    var u :| Current(s, u, n) && s.slots[u].copy.id == id;
    D.MemoryFollowsLog(states, events, i, u, sub);
    var x :| x in Pending(s.slots[u].copy);
    D.MemoryFollowsLog(states, events, i, u, x);
    var e' :| Addresses(s.log, e', s.slots[u].copy.queue, id, x);
    assert e' == e;
    D.ForgottenMeansSettled(states, events, i, n, u, sub);
  }

  /** Nothing is missed: node n passes the barrier at state b, is running from state i on, and its sweep reads every
      queue after that and is through by state j. Then whatever the log owed at the barrier is in flight, or is not
      owed any more. */
  lemma PromotionMissesNothing(states: seq<Cluster>, events: seq<Event>, n: nat, b: nat, i: nat, j: nat, q: string,
                               id: string, sub: string)
    requires IsRun(states, events) && b <= i <= j < |states| && n in states[b].nodes
    requires states[b].nodes[n].applied == |states[b].log| && Leads(states, n, i, j) && UniqueIds(states[j].log)
    requires exists m :: i <= m <= j && SweepsQueue(states, events, n, q, m, j)
    requires Owed(Run(EMPTY, states[b].log), q, id, sub)
    ensures id in states[j].nodes[n].inFlight || !Owed(Run(EMPTY, states[j].log), q, id, sub)
  {
    var m :| i <= m <= j && SweepsQueue(states, events, n, q, m, j);
    var read := ReadAtSweep(states, events, n, b, q, m, j);
    RunGrows(states, events, m, j);
    UniqueIsFresh(states[j].log);
    hide IsRun, Run, Owed, UniqueIds, FreshIds, SweepsQueue;
    var e := OwedWasAddressed(states[b].log, states[j].log, q, id, sub);
    assert Addresses(read, e, q, id, sub);
    if Holds(Run(EMPTY, read), q, id) {
      FoundIsInFlight(states, events, n, m, j, q, id, sub, e);
    } else {
      OwedNeverReturns(read, states[j].log, e, q, id, sub);
    }
  }

  /** The prefix of the log that a sweep after the barrier reads: no shorter than the log at the barrier. */
  lemma ReadAtSweep(states: seq<Cluster>, events: seq<Event>, n: nat, b: nat, q: string, m: nat, j: nat)
    returns (read: seq<Command>)
    requires IsRun(states, events) && b <= m <= j < |states| && n in states[b].nodes
    requires SweepsQueue(states, events, n, q, m, j)
    requires states[b].nodes[n].applied == |states[b].log|
    ensures states[b].log <= read <= states[m].log && read == states[m].log[..states[m].nodes[n].applied]
  {
    RunGrows(states, events, b, m);
    read := states[m].log[..states[m].nodes[n].applied];
  }

  lemma FoundIsInFlight(states: seq<Cluster>, events: seq<Event>, n: nat, m: nat, j: nat, q: string, id: string,
                        sub: string, e: int)
    requires IsRun(states, events) && m <= j < |states| && Leads(states, n, m, j) && UniqueIds(states[j].log)
    requires SweepsQueue(states, events, n, q, m, j)
    requires Holds(Run(EMPTY, states[m].log[..states[m].nodes[n].applied]), q, id)
    requires Addresses(states[m].log, e, q, id, sub)
    ensures id in states[j].nodes[n].inFlight || !Owed(Run(EMPTY, states[j].log), q, id, sub)
  {
    hide Next, Run, Owed, UniqueIds;
    var m' :| m <= m' < j && events[m'] == ScheduleEvent(n, states[m].nodes[n].applied, q, id);
    SweptIsInFlight(states, events, n, states[m].nodes[n].applied, q, id, m');
    RunGrows(states, events, m, m' + 1);
    assert Addresses(states[m' + 1].log, e, q, id, sub);
    StaysInFlight(states, events, n, m' + 1, j, q, id, sub, e);
  }

  lemma SweptIsInFlight(states: seq<Cluster>, events: seq<Event>, n: nat, a: nat, q: string, id: string, m: nat)
    requires IsRun(states, events) && m < |events| && events[m] == ScheduleEvent(n, a, q, id)
    requires n in states[m].nodes && states[m].nodes[n].running
    ensures n in states[m + 1].nodes && id in states[m + 1].nodes[n].inFlight
  {
    hide Run, Holds, Presented, D.SlotOk, D.OneCopy, D.Evidence;
    D.RunKeeps(states, events, m);
    assert Next(states[m], states[m + 1], events[m]);
    ScheduledIsInFlight(states[m], states[m + 1], n, a, q, id);
  }

  lemma OwedWasAddressed(log: seq<Command>, log': seq<Command>, q: string, id: string, sub: string) returns (e: int)
    requires log <= log' && FreshIds(log') && Owed(Run(EMPTY, log), q, id, sub)
    ensures Addresses(log, e, q, id, sub)
  {
    hide Run;
    assert FreshIds(log) by { assert forall i :: 0 <= i < |log| ==> log'[i] == log[i]; }
    OwedMatchesLog(log, q, id, sub);
    e :| OpenSince(log, e, q, id, sub);
  }
}
