/**
  One message in a leader's hands: the passes of the delivery worker, which
  subscribers they settle, and why they come to an end.
 */
module Worker {
  import opened Storage

  /** A leader-local copy of a message. Retry counts live only here. */
  datatype Copy = Copy(queue: string, id: string, payload: string, subList: map<string, SubPolicy>,
                       acked: set<string>, retries: map<string, nat>)

  /** NewQueueMsg: a copy of a stored message, with no failures yet. */
  function CopyOf(queue: string, m: MessageState): Copy {
    Copy(queue, m.msgID, m.payload, m.subList, m.acked, map[])
  }

  function Pending(c: Copy): set<string> {
    c.subList.Keys - c.acked
  }

  function Tries(c: Copy, sub: string): nat {
    if sub in c.retries then c.retries[sub] else 0
  }

  /** How many failures settle a subscriber: at least one attempt is always made. */
  function Attempts(policy: SubPolicy): nat {
    if policy.numberOfRetries < 1 then 1 else policy.numberOfRetries
  }

  function Budget(c: Copy, sub: string): nat
    requires sub in c.subList
  {
    Attempts(c.subList[sub])
  }

  /** After one pass in which exactly `ok` of the pending subscribers accepted the message. */
  function AfterSends(c: Copy, ok: set<string>): Copy {
    c.(retries := map s | s in c.retries.Keys + (Pending(c) - ok) ::
                    Tries(c, s) + if s in Pending(c) && s !in ok then 1 else 0)
  }

  /** The subscribers a pass settles: delivered to, or out of retries. */
  function Finished(c: Copy, ok: set<string>): set<string> {
    set s | s in Pending(c) && (s in ok || Tries(c, s) + 1 >= c.subList[s].numberOfRetries)
  }

  /** A pass whose ack committed. */
  function Pass(c: Copy, ok: set<string>): Copy {
    AfterSends(c, ok).(acked := c.acked + Finished(c, ok))
  }

  predicate Done(c: Copy) {
    |c.acked| >= |c.subList|
  }

  /** Every pending subscriber has budget left; acks stay within the snapshot. */
  ghost predicate WithinBudget(c: Copy) {
    && c.acked <= c.subList.Keys
    && forall s :: s in Pending(c) ==> Tries(c, s) < Budget(c, s)
  }

  /** The comparison of sizes never forgets to go on: a copy that is not done still owes someone. */
  lemma NotDoneMeansPending(c: Copy)
    requires !Done(c)
    ensures Pending(c) != {}
  {
    if Pending(c) == {} {
      assert c.subList.Keys <= c.acked by {
        assert forall s :: s in c.subList.Keys ==> s in c.acked || s in Pending(c);
      }
      SubsetSize(c.subList.Keys, c.acked);
    }
  }

  /** It ends too early only for acks from outside the snapshot, which storage never holds. */
  lemma DoneMeansNonePending(c: Copy)
    requires c.acked <= c.subList.Keys
    ensures Done(c) <==> Pending(c) == {}
  {
    var m := MessageState(0, c.id, "", c.subList, c.acked);
    CompleteMeansCovered(m);
    assert forall s :: s in c.subList.Keys ==> s in c.acked || s in Pending(c);
  }

  /** One subscriber across one pass: settled for good, or one try poorer. */
  lemma PassEffect(c: Copy, ok: set<string>, s: string)
    requires WithinBudget(c) && s in c.subList
    ensures s in Pending(Pass(c, ok)) <==> s in Pending(c) && s !in ok && Tries(c, s) + 1 < Budget(c, s)
    ensures Tries(Pass(c, ok), s) == Tries(c, s) + if s in Pending(c) && s !in ok then 1 else 0
  {
  }

  lemma PassKeepsBudget(c: Copy, ok: set<string>)
    requires WithinBudget(c)
    ensures WithinBudget(Pass(c, ok)) && Pass(c, ok).subList == c.subList && Pending(Pass(c, ok)) <= Pending(c)
  {
    forall s | s in Pending(Pass(c, ok)) ensures s in Pending(c) && Tries(Pass(c, ok), s) < Budget(c, s) {
      PassEffect(c, ok, s);
    }
  }

  // ---- The sum of remaining budgets ----

  function Left(c: Copy, s: string): int
    requires s in c.subList
  {
    Budget(c, s) - Tries(c, s)
  }

  ghost function SumLeft(c: Copy, S: set<string>): int
    requires S <= c.subList.Keys
  {
    if S == {} then 0 else var s :| s in S; Left(c, s) + SumLeft(c, S - {s})
  }

  lemma {:induction false} SumLeftRemove(c: Copy, S: set<string>, s: string)
    requires S <= c.subList.Keys && s in S
    ensures SumLeft(c, S) == Left(c, s) + SumLeft(c, S - {s})
    decreases S
  {
    var t :| t in S && SumLeft(c, S) == Left(c, t) + SumLeft(c, S - {t});
    if t != s {
      SumLeftRemove(c, S - {t}, s);
      SumLeftRemove(c, S - {s}, t);
      assert S - {t} - {s} == S - {s} - {t};
    }
  }

  /** Over any set S of subscribers, a pass leaves no more to do on those still
      pending, and one unit less on each that was. */
  lemma {:induction false} SumLeftFalls(c: Copy, ok: set<string>, S: set<string>)
    requires WithinBudget(c) && S <= Pending(c)
    ensures SumLeft(Pass(c, ok), S * Pending(Pass(c, ok))) <= SumLeft(c, S) - |S|
    decreases S
  {
    var c' := Pass(c, ok);
    if S == {} {
      assert S * Pending(c') == {};
    } else {
      var s :| s in S;
      SumLeftFalls(c, ok, S - {s});
      SumLeftRemove(c, S, s);
      PassEffect(c, ok, s);
      if s in Pending(c') {
        SumLeftRemove(c', S * Pending(c'), s);
        assert S * Pending(c') - {s} == (S - {s}) * Pending(c');
      } else {
        assert S * Pending(c') == (S - {s}) * Pending(c');
      }
    }
  }

  /** The measure of an unfinished message strictly falls with every pass. */
  lemma RemainingBudgetFalls(c: Copy, ok: set<string>)
    requires WithinBudget(c) && Pending(c) != {}
    ensures SumLeft(Pass(c, ok), Pending(Pass(c, ok))) < SumLeft(c, Pending(c))
  {
    PassKeepsBudget(c, ok);
    SumLeftFalls(c, ok, Pending(c));
    assert Pending(c) * Pending(Pass(c, ok)) == Pending(Pass(c, ok));
  }

  // ---- Many passes ----

  /** The copy after a pass for each element of `oks`. */
  function Passes(c: Copy, oks: seq<set<string>>): Copy {
    if oks == [] then c else Pass(Passes(c, oks[..|oks| - 1]), oks[|oks| - 1])
  }

  /** Giving up, in numbers: a subscriber that never accepts is sent the message exactly as often as its policy
      says, and once if that says less than one. */
  lemma {:induction false} GivesUpExactly(c: Copy, oks: seq<set<string>>, s: string)
    requires c.retries == map[] && s in Pending(c) && forall i :: 0 <= i < |oks| ==> s !in oks[i]
    ensures s in Pending(Passes(c, oks)) <==> oks == [] || |oks| < c.subList[s].numberOfRetries
    ensures Passes(c, oks).subList == c.subList
    ensures s in Pending(Passes(c, oks)) ==> Tries(Passes(c, oks), s) == |oks|
    decreases |oks|
  {
    if oks != [] {
      var n := |oks| - 1;
      GivesUpExactly(c, oks[..n], s);
      assert s !in oks[n];
    }
  }

  /** And one that accepts in some pass before that is settled from then on. */
  lemma {:induction false} AcceptingSettles(c: Copy, oks: seq<set<string>>, s: string, i: nat)
    requires i < |oks| && s in oks[i]
    ensures s !in Pending(Passes(c, oks))
    decreases |oks|
  {
    var n := |oks| - 1;
    if i < n {
      AcceptingSettles(c, oks[..n], s, i);
    }
  }

  /** A message as it is first scheduled. */
  ghost predicate Fresh(c: Copy) {
    c.acked <= c.subList.Keys && c.retries == map[]
  }

  /** A subscriber still pending after k passes was sent the message, and failed, in every one of them. */
  lemma {:induction false} PendingWasTried(c: Copy, oks: seq<set<string>>, s: string)
    requires Fresh(c) && s in c.subList
    ensures WithinBudget(Passes(c, oks)) && Passes(c, oks).subList == c.subList
    ensures s in Pending(Passes(c, oks)) ==> s in Pending(c) && Tries(Passes(c, oks), s) == |oks|
    decreases |oks|
  {
    if oks != [] {
      var n := |oks| - 1;
      PendingWasTried(c, oks[..n], s);
      PassEffect(Passes(c, oks[..n]), oks[n], s);
      PassKeepsBudget(Passes(c, oks[..n]), oks[n]);
    }
  }

  /** No subscriber is sent a message more often than its budget allows, nor after it settled:
      the pass numbered k reaches s only while k is below the budget of s. */
  lemma NoSendBeyondBudget(c: Copy, oks: seq<set<string>>, s: string)
    requires Fresh(c) && s in c.subList && s in Pending(Passes(c, oks))
    ensures |oks| < Budget(c, s)
    ensures forall k :: 0 <= k <= |oks| ==> s in Pending(Passes(c, oks[..k]))
  {
    PendingWasTried(c, oks, s);
    forall k | 0 <= k <= |oks| ensures s in Pending(Passes(c, oks[..k])) {
      PendingBefore(c, oks, s, k);
    }
  }

  lemma {:induction false} PendingBefore(c: Copy, oks: seq<set<string>>, s: string, k: nat)
    requires Fresh(c) && s in c.subList && s in Pending(Passes(c, oks)) && k <= |oks|
    ensures s in Pending(Passes(c, oks[..k]))
    decreases |oks|
  {
    if k < |oks| {
      var n := |oks| - 1;
      PendingWasTried(c, oks[..n], s);
      PassEffect(Passes(c, oks[..n]), oks[n], s);
      assert oks[..n][..k] == oks[..k];
      PendingBefore(c, oks[..n], s, k);
    } else {
      assert oks[..k] == oks;
    }
  }

  lemma AcksWithin(c: Copy, oks: seq<set<string>>)
    requires Fresh(c)
    ensures Passes(c, oks).acked <= c.subList.Keys == Passes(c, oks).subList.Keys
  {
    AllWithinBudget(c, oks);
  }

  lemma OutOfBudget(c: Copy, oks: seq<set<string>>, s: string)
    requires Fresh(c) && s in c.subList && (s in Pending(c) ==> Budget(c, s) <= |oks|)
    ensures s in Passes(c, oks).acked
  {
    hide Passes;
    AllWithinBudget(c, oks);
    PendingWasTried(c, oks, s);
  }

  /** Retries end: after as many passes as the largest budget, whatever the sends did, the message is done. */
  lemma RetriesEnd(c: Copy, oks: seq<set<string>>)
    requires Fresh(c) && forall s :: s in Pending(c) ==> Budget(c, s) <= |oks|
    ensures Done(Passes(c, oks)) && Passes(c, oks).acked == c.subList.Keys
  {
    hide Passes, Fresh, WithinBudget, Tries, Budget, Done;
    var c' := Passes(c, oks);
    AcksWithin(c, oks);
    forall s | s in c.subList ensures s in c'.acked {
      OutOfBudget(c, oks, s);
    }
    assert c'.acked == c.subList.Keys && Pending(c') == {};
    DoneMeansNonePending(c');
  }

  lemma {:induction false} AllWithinBudget(c: Copy, oks: seq<set<string>>)
    requires Fresh(c)
    ensures WithinBudget(Passes(c, oks)) && Passes(c, oks).subList == c.subList
    decreases |oks|
  {
    if oks != [] {
      AllWithinBudget(c, oks[..|oks| - 1]);
      PassKeepsBudget(Passes(c, oks[..|oks| - 1]), oks[|oks| - 1]);
    }
  }

  // ---- The worker's pass as it runs ----

  class QueueMsg {
    const queue: string
    const msgID: string
    const payload: string
    const subList: map<string, SubPolicy>
    var ackedSubs: set<string>
    var retryMap: map<string, nat>

    ghost function Value(): Copy
      reads this
    {
      Copy(queue, msgID, payload, subList, ackedSubs, retryMap)
    }

    constructor (c: Copy)
      ensures Value() == c
    {
      queue, msgID, payload, subList := c.queue, c.id, c.payload, c.subList;
      ackedSubs, retryMap := c.acked, c.retries;
    }

    method PendingSubs() returns (pending: map<string, SubPolicy>)
      ensures pending.Keys == Pending(Value()) && forall s :: s in pending ==> pending[s] == subList[s]
    {
      pending := map[];
      var todo := subList.Keys;
      while todo != {}
        invariant todo <= subList.Keys
        invariant pending == map s | s in subList && s !in todo && s !in ackedSubs :: subList[s]
        decreases todo
      {
        var name :| name in todo;
        todo := todo - {name};
        if name !in ackedSubs {
          pending := pending[name := subList[name]];
        }
      }
    }

    /** Collects the results of one round of sends, in the order they arrive. */
    method Collect(pending: map<string, SubPolicy>, ok: set<string>) returns (finished: set<string>)
      requires pending.Keys == Pending(Value()) && forall s :: s in pending ==> pending[s] == subList[s]
      modifies this
      ensures Value() == AfterSends(old(Value()), ok) && finished == Finished(old(Value()), ok)
    {
      finished := {};
      var todo := pending.Keys;
      while todo != {}
        invariant todo <= pending.Keys && ackedSubs == old(ackedSubs)
        invariant finished == Finished(old(Value()), ok) - todo
        invariant forall s :: s in retryMap <==> s in old(retryMap) || (s in pending && s !in todo && s !in ok)
        invariant forall s :: s in retryMap ==>
                    retryMap[s] == Tries(old(Value()), s) + if s in pending && s !in todo && s !in ok then 1 else 0
        decreases todo
      {
        var name :| name in todo;
        todo := todo - {name};
        if name in ok {
          finished := finished + {name};
        } else {
          retryMap := retryMap[name := (if name in retryMap then retryMap[name] else 0) + 1];
          if retryMap[name] >= pending[name].numberOfRetries {
            finished := finished + {name};
          }
        }
      }
      assert retryMap == AfterSends(old(Value()), ok).retries;
    }
  }

  datatype Verdict = Forgotten | Dropped | Requeued

  /** Process: one pass over a message. `ok` is which sends succeed, `stopped` whether the
      leader was demoted meanwhile, `committed` whether the ack command committed. */
  method Process(msg: QueueMsg, ok: set<string>, stopped: bool, committed: bool)
    returns (verdict: Verdict, acked: set<string>)
    modifies msg
    ensures
      var c, c' := old(msg.Value()), msg.Value();
      if Pending(c) == {} then verdict == Forgotten && c' == c && acked == {}
      else if stopped then verdict == Dropped && c' == AfterSends(c, ok) && acked == {}
      else
        && acked == Finished(c, ok)
        && (if acked != {} && !committed then verdict == Requeued && c' == AfterSends(c, ok)
            else c' == Pass(c, ok) && verdict == if Done(c') then Forgotten else Requeued)
  {
    var pending := msg.PendingSubs();
    if pending == map[] {
      return Forgotten, {};
    }
    assert pending.Keys != {};
    var finished := msg.Collect(pending, ok);
    if stopped {
      return Dropped, {};
    }
    if finished != {} {
      if !committed {
        return Requeued, finished;
      }
      msg.ackedSubs := msg.ackedSubs + finished;
    } else {
      assert msg.ackedSubs == msg.ackedSubs + finished;
    }
    if |msg.ackedSubs| >= |msg.subList| {
      return Forgotten, finished;
    }
    return Requeued, finished;
  }
}
