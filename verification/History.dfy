/**
  What the store owes, read off the committed log alone: no store, no acks
  counted, just which commands came after which.
 */
module History {
  import opened Storage

  ghost predicate Creates(log: seq<Command>, i: int, q: string) {
    0 <= i < |log| && log[i] == CreateQueue(q)
  }

  ghost predicate Deletes(log: seq<Command>, i: int, q: string) {
    0 <= i < |log| && log[i] == DeleteQueue(q)
  }

  /** Command i enqueues message `id` on `q`, addressed to `sub` among others. */
  ghost predicate Addresses(log: seq<Command>, i: int, q: string, id: string, sub: string) {
    0 <= i < |log| && log[i].Enqueue? && log[i].queue == q && log[i].msgID == id && sub in log[i].subList
  }

  ghost predicate Settles(log: seq<Command>, i: int, q: string, id: string, sub: string) {
    0 <= i < |log| && log[i].Ack? && log[i].queue == q && log[i].msgID == id && sub in log[i].subNames
  }

  /** Queue `q` was created and not deleted since, as of position n. */
  ghost predicate LiveAt(log: seq<Command>, n: int, q: string) {
    exists c :: c < n && Creates(log, c, q) && forall d :: c < d < n ==> !Deletes(log, d, q)
  }

  /** The obligation entered at position i is still open. */
  ghost predicate OpenSince(log: seq<Command>, i: int, q: string, id: string, sub: string) {
    && Addresses(log, i, q, id, sub) && LiveAt(log, i, q)
    && forall j :: i < j < |log| ==> !Deletes(log, j, q) && !Settles(log, j, q, id, sub)
  }

  ghost predicate Open(log: seq<Command>, q: string, id: string, sub: string) {
    exists i :: OpenSince(log, i, q, id, sub)
  }

  /** Ids are never used twice on a queue. */
  ghost predicate FreshIds(log: seq<Command>) {
    forall i, j :: 0 <= i < j < |log| && log[i].Enqueue? && log[j].Enqueue? ==>
      log[i].queue != log[j].queue || log[i].msgID != log[j].msgID
  }

  // ---- Cutting the last command off ----

  lemma LivePrefix(log: seq<Command>, n: int, q: string)
    requires 0 <= n <= |log| - 1
    ensures LiveAt(log, n, q) <==> LiveAt(log[..|log| - 1], n, q)
  {
    var short := log[..|log| - 1];
    forall c | c < n ensures Creates(log, c, q) == Creates(short, c, q) && Deletes(log, c, q) == Deletes(short, c, q) {}
    if LiveAt(log, n, q) {
      var c :| c < n && Creates(log, c, q) && forall d :: c < d < n ==> !Deletes(log, d, q);
      assert Creates(short, c, q) && forall d :: c < d < n ==> !Deletes(short, d, q);
    }
    if LiveAt(short, n, q) {
      var c :| c < n && Creates(short, c, q) && forall d :: c < d < n ==> !Deletes(short, d, q);
      assert Creates(log, c, q) && forall d :: c < d < n ==> !Deletes(log, d, q);
    }
  }

  lemma LiveSnoc(log: seq<Command>, q: string)
    requires log != []
    ensures
      var n := |log| - 1;
      LiveAt(log, |log|, q) <==> log[n] == CreateQueue(q) || (log[n] != DeleteQueue(q) && LiveAt(log[..n], n, q))
  {
    var n := |log| - 1;
    LivePrefix(log, n, q);
    if LiveAt(log, |log|, q) && log[n] != CreateQueue(q) {
      var c :| c < |log| && Creates(log, c, q) && forall d :: c < d < |log| ==> !Deletes(log, d, q);
      assert c < n && !Deletes(log, n, q);
      assert LiveAt(log, n, q);
    }
    if log[n] == CreateQueue(q) {
      assert Creates(log, n, q);
    }
    if log[n] != DeleteQueue(q) && LiveAt(log, n, q) {
      var c :| c < n && Creates(log, c, q) && forall d :: c < d < n ==> !Deletes(log, d, q);
      assert forall d :: c < d < |log| ==> !Deletes(log, d, q);
    }
  }

  /** The store has a queue exactly when the log created it and has not deleted it since. */
  lemma {:induction false} QueueMatchesLog(log: seq<Command>, q: string)
    ensures q in Run(EMPTY, log).queues <==> LiveAt(log, |log|, q)
    decreases |log|
  {
    if log != [] {
      QueueMatchesLog(log[..|log| - 1], q);
      LiveSnoc(log, q);
    }
  }

  lemma OpenSincePrefix(log: seq<Command>, i: int, q: string, id: string, sub: string)
    requires log != [] && i < |log| - 1
    ensures
      var n := |log| - 1;
      OpenSince(log, i, q, id, sub) <==>
      OpenSince(log[..n], i, q, id, sub) && log[n] != DeleteQueue(q) && !Settles(log, n, q, id, sub)
  {
    var n := |log| - 1;
    var short := log[..n];
    if 0 <= i {
      LivePrefix(log, i, q);
    }
    forall j | j < n
      ensures Deletes(log, j, q) == Deletes(short, j, q) && Settles(log, j, q, id, sub) == Settles(short, j, q, id, sub)
    {}
    assert Deletes(log, n, q) <==> log[n] == DeleteQueue(q);
  }

  lemma OpenSnoc(log: seq<Command>, q: string, id: string, sub: string)
    requires log != []
    ensures
      var n := |log| - 1;
      Open(log, q, id, sub) <==>
      || (Addresses(log, n, q, id, sub) && LiveAt(log[..n], n, q))
      || (Open(log[..n], q, id, sub) && log[n] != DeleteQueue(q) && !Settles(log, n, q, id, sub))
  {
    var n := |log| - 1;
    LivePrefix(log, n, q);
    if Open(log, q, id, sub) {
      var i :| OpenSince(log, i, q, id, sub);
      if i < n { OpenSincePrefix(log, i, q, id, sub); }
    }
    if Addresses(log, n, q, id, sub) && LiveAt(log, n, q) {
      assert OpenSince(log, n, q, id, sub);
    }
    if Open(log[..n], q, id, sub) && log[n] != DeleteQueue(q) && !Settles(log, n, q, id, sub) {
      var i :| OpenSince(log[..n], i, q, id, sub);
      OpenSincePrefix(log, i, q, id, sub);
    }
  }

  // ---- The store side of the same step ----

  lemma OwedAfterAck(s: Store, c: Command, q: string, id: string, sub: string)
    requires Inv(s) && c.Ack?
    ensures Owed(ApplyAck(s, c).store, q, id, sub) <==>
            Owed(s, q, id, sub) && !(c.queue == q && c.msgID == id && sub in c.subNames)
  {
    if Holds(s, q, id) && c.queue == q && c.msgID == id {
      assert MessageOk(MessageAt(s, q, id), id, s.nextSeq);
      CompleteMeansCovered(Settled(MessageAt(s, q, id), c.subNames));
    }
  }

  lemma OwedAfterEnqueue(s: Store, c: Command, q: string, id: string, sub: string)
    requires c.Enqueue? && (c.queue == q && c.msgID == id ==> !Holds(s, q, id))
    ensures Owed(ApplyEnqueue(s, c).store, q, id, sub) <==>
            Owed(s, q, id, sub) || (c.queue == q && c.msgID == id && sub in c.subList && q in s.queues)
  {
  }

  lemma OwedAfterOther(s: Store, c: Command, q: string, id: string, sub: string)
    requires !c.Enqueue? && !c.Ack?
    ensures Owed(Apply(s, c).store, q, id, sub) <==> Owed(s, q, id, sub) && c != DeleteQueue(q)
  {
  }

  lemma OwedSnoc(s: Store, c: Command, q: string, id: string, sub: string)
    requires Inv(s)
    requires c.Enqueue? && c.queue == q && c.msgID == id ==> !Holds(s, q, id)
    ensures Owed(Apply(s, c).store, q, id, sub) <==>
              || (c.Enqueue? && c.queue == q && c.msgID == id && sub in c.subList && q in s.queues)
              || (Owed(s, q, id, sub) && c != DeleteQueue(q) &&
                !(c.Ack? && c.queue == q && c.msgID == id && sub in c.subNames))
  {
    hide Owed, Inv, ApplyAck, ApplyEnqueue, Holds;
    match c
    case Ack(_, _, _) => OwedAfterAck(s, c, q, id, sub);
    case Enqueue(_, _, _, _) => OwedAfterEnqueue(s, c, q, id, sub);
    case _ => OwedAfterOther(s, c, q, id, sub);
  }

  lemma {:induction false} HeldWasEnqueued(log: seq<Command>, q: string, id: string) returns (i: int)
    requires Holds(Run(EMPTY, log), q, id)
    ensures 0 <= i < |log| && log[i].Enqueue? && log[i].queue == q && log[i].msgID == id
    ensures MessageAt(Run(EMPTY, log), q, id).seqNo == Run(EMPTY, log[..i]).nextSeq < Run(EMPTY, log[..i + 1]).nextSeq
    ensures MessageAt(Run(EMPTY, log), q, id).subList == log[i].subList
    ensures MessageAt(Run(EMPTY, log), q, id).payload == log[i].payload && MessageAt(Run(EMPTY, log), q, id).msgID == id
    decreases |log|
  {
    var n := |log| - 1;
    var s := Run(EMPTY, log[..n]);
    RunKeepsInv(log[..n]);
    HoldsAfter(s, log[n], q, id);
    if Holds(s, q, id) {
      i := HeldWasEnqueued(log[..n], q, id);
      assert log[..n][..i] == log[..i] && log[..n][..i + 1] == log[..i + 1];
    } else {
      i := n;
      assert log[..n + 1] == log;
    }
  }

  /** The store matches its history: with fresh ids, a subscriber is owed a message
      exactly when an enqueue on the live queue listed it and neither a deletion of
      the queue nor an ack naming it came later. */
  lemma {:induction false} OwedMatchesLog(log: seq<Command>, q: string, id: string, sub: string)
    requires FreshIds(log)
    ensures Owed(Run(EMPTY, log), q, id, sub) <==> Open(log, q, id, sub)
    decreases |log|
  {
    if log != [] {
      var n := |log| - 1;
      var short, c := log[..n], log[n];
      var s := Run(EMPTY, short);
      OwedMatchesLog(short, q, id, sub);
      RunKeepsInv(short);
      if Holds(s, q, id) {
        var i := HeldWasEnqueued(short, q, id);
        assert short[i] == log[i];
      }
      OwedSnoc(s, c, q, id, sub);
      OpenSnoc(log, q, id, sub);
      QueueMatchesLog(short, q);
    }
  }

  // ---- Subscribers ----

  /** Command i gives queue q the policy p. */
  ghost predicate Puts(log: seq<Command>, i: int, q: string, p: SubPolicy) {
    0 <= i < |log| && log[i] == PutSubPolicy(q, p)
  }

  /** Command i ends or replaces what queue q has for `sub`. */
  ghost predicate Displaces(log: seq<Command>, i: int, q: string, sub: string) {
    && 0 <= i < |log|
    && ((log[i].PutSubPolicy? && log[i].queue == q && log[i].policy.subName == sub)
        || log[i] == DeleteSubPolicy(q, sub) || log[i] == DeleteQueue(q))
  }

  /** The policy put at position i, while q existed, still stands. */
  ghost predicate StandsSince(log: seq<Command>, i: int, q: string, p: SubPolicy) {
    && Puts(log, i, q, p) && LiveAt(log, i, q)
    && forall j :: i < j < |log| ==> !Displaces(log, j, q, p.subName)
  }

  ghost predicate Stands(log: seq<Command>, q: string, p: SubPolicy) {
    exists i :: StandsSince(log, i, q, p)
  }

  /** Queue q has policy p for the subscriber that p names. */
  predicate HasPolicy(s: Store, q: string, sub: string, p: SubPolicy) {
    q in s.queues && sub in s.queues[q].subs && s.queues[q].subs[sub] == p
  }

  lemma StandsSincePrefix(log: seq<Command>, i: int, q: string, p: SubPolicy)
    requires log != [] && i < |log| - 1
    ensures
      var n := |log| - 1;
      StandsSince(log, i, q, p) <==> StandsSince(log[..n], i, q, p) && !Displaces(log, n, q, p.subName)
  {
    var n := |log| - 1;
    if 0 <= i { LivePrefix(log, i, q); }
    forall j | j < n ensures Displaces(log, j, q, p.subName) == Displaces(log[..n], j, q, p.subName) {}
  }

  lemma StandsSnoc(log: seq<Command>, q: string, p: SubPolicy)
    requires log != []
    ensures
      var n := |log| - 1;
      Stands(log, q, p) <==>
      || (Puts(log, n, q, p) && LiveAt(log[..n], n, q))
      || (Stands(log[..n], q, p) && !Displaces(log, n, q, p.subName))
  {
    var n := |log| - 1;
    LivePrefix(log, n, q);
    if Stands(log, q, p) {
      var i :| StandsSince(log, i, q, p);
      if i < n { StandsSincePrefix(log, i, q, p); }
    }
    if Puts(log, n, q, p) && LiveAt(log, n, q) {
      assert StandsSince(log, n, q, p);
    }
    if Stands(log[..n], q, p) && !Displaces(log, n, q, p.subName) {
      var i :| StandsSince(log[..n], i, q, p);
      StandsSincePrefix(log, i, q, p);
    }
  }

  lemma PolicySnoc(s: Store, c: Command, q: string, sub: string, p: SubPolicy)
    ensures HasPolicy(Apply(s, c).store, q, sub, p) <==>
            || (c == PutSubPolicy(q, p) && p.subName == sub && q in s.queues)
            || (HasPolicy(s, q, sub, p) && c != DeleteSubPolicy(q, sub) && c != DeleteQueue(q)
                && !(c.PutSubPolicy? && c.queue == q && c.policy.subName == sub))
  {
  }

  /** The subscribers of a queue, read off the log: q maps sub to p exactly when p names sub and was put while q
      existed, and neither another policy of that name, nor a removal of it, nor a deletion of q came later. */
  lemma {:induction false} PolicyMatchesLog(log: seq<Command>, q: string, sub: string, p: SubPolicy)
    ensures HasPolicy(Run(EMPTY, log), q, sub, p) <==> p.subName == sub && Stands(log, q, p)
    decreases |log|
  {
    if log != [] {
      var n := |log| - 1;
      PolicyMatchesLog(log[..n], q, sub, p);
      QueueMatchesLog(log[..n], q);
      PolicySnoc(Run(EMPTY, log[..n]), log[n], q, sub, p);
      hide HasPolicy, Apply;
      StandsSnoc(log, q, p);
    }
  }

  lemma {:induction false} NextSeqGrows(log: seq<Command>, i: nat)
    requires i <= |log|
    ensures Run(EMPTY, log[..i]).nextSeq <= Run(EMPTY, log).nextSeq
    decreases |log|
  {
    if i < |log| {
      var n := |log| - 1;
      NextSeqGrows(log[..n], i);
      assert log[..n][..i] == log[..i];
      RunKeepsInv(log[..n]);
      StepKeepsInv(Run(EMPTY, log[..n]), log[n]);
    } else {
      assert log[..i] == log;
    }
  }

  /** Sequence numbers are log order: of two stored messages, the one enqueued earlier has the lower number. */
  lemma PendingInLogOrder(log: seq<Command>, q: string, id: string, q': string, id': string) returns (i: int, j: int)
    requires Holds(Run(EMPTY, log), q, id) && Holds(Run(EMPTY, log), q', id')
    ensures 0 <= i < |log| && log[i].Enqueue? && log[i].queue == q && log[i].msgID == id
    ensures 0 <= j < |log| && log[j].Enqueue? && log[j].queue == q' && log[j].msgID == id'
    ensures MessageAt(Run(EMPTY, log), q, id).seqNo < MessageAt(Run(EMPTY, log), q', id').seqNo <==> i < j
  {
    i := HeldWasEnqueued(log, q, id);
    j := HeldWasEnqueued(log, q', id');
    if i < j {
      NextSeqGrows(log[..j], i + 1);
      assert log[..j][..i + 1] == log[..i + 1];
    } else if j < i {
      NextSeqGrows(log[..i], j + 1);
      assert log[..i][..j + 1] == log[..j + 1];
    }
  }
}
