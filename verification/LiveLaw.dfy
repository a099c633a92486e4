/**
  The live state, read off the records alone: which queues, policies and messages
  a log leaves behind is told by which records came after which.
 */
module LiveLaw {
  import opened Records
  import opened LiveState
  import opened ReplayLaw

  // ---- The catalog ----

  /** Once queue q exists it takes a deletion to end it. */
  lemma {:induction false} QueueReadsOff(recs: seq<Record>, q: string)
    ensures q in Run(NOTHING, recs).catalog <==> Exists(recs, |recs|, q)
    decreases |recs|
  {
    if recs != [] {
      var n := |recs| - 1;
      QueueReadsOff(recs[..n], q);
      ExistsPrefix(recs, n, n, q);
      ExistsSnoc(recs, q);
    }
  }

  /** The record ends what was said about subscriber s of queue q. */
  ghost predicate Overrides(r: Record, q: string, s: string) {
    && r.queueName == q
    && (|| r.op.CreateQueue?
        || r.op.DeleteQueue?
        || (r.op.UpdateSubPolicy? && r.op.policy.subName == s)
        || (r.op.DeleteSubPolicy? && r.op.removed.subName == s))
  }

  /** Record i gave subscriber p.subName of the existing queue q the policy p, and nothing has ended that since. */
  ghost predicate PolicyAt(recs: seq<Record>, i: int, q: string, p: SubPolicy) {
    && 0 <= i < |recs| && recs[i].queueName == q && recs[i].op == UpdateSubPolicy(p) && Exists(recs, i, q)
    && forall j :: i < j < |recs| ==> !Overrides(recs[j], q, p.subName)
  }

  ghost predicate Subscribed(l: Live, q: string, p: SubPolicy) {
    q in l.catalog && p.subName in l.catalog[q] && l.catalog[q][p.subName] == p
  }

  lemma PolicyAtSnoc(recs: seq<Record>, i: int, q: string, p: SubPolicy)
    requires recs != [] && i < |recs| - 1
    ensures
      var n := |recs| - 1;
      PolicyAt(recs, i, q, p) <==> PolicyAt(recs[..n], i, q, p) && !Overrides(recs[n], q, p.subName)
  {
    hide Overrides;
    if 0 <= i { ExistsPrefix(recs, |recs| - 1, i, q); }
    hide Exists;
    var n := |recs| - 1;
    if PolicyAt(recs[..n], i, q, p) && !Overrides(recs[n], q, p.subName) {
      forall j | i < j < |recs| ensures !Overrides(recs[j], q, p.subName) { assert j < n ==> recs[j] == recs[..n][j]; }
    }
  }

  lemma SubscribedStep(l: Live, r: Record, q: string, p: SubPolicy)
    ensures Subscribed(Step(l, r), q, p) <==>
            || (r.queueName == q && r.op == UpdateSubPolicy(p) && q in l.catalog)
            || (Subscribed(l, q, p) && !Overrides(r, q, p.subName))
  {
  }

  /** A subscriber has exactly the policy last given to it, while its queue existed, unless its queue has been created
      or deleted since, or the policy removed. */
  lemma {:induction false} PolicyReadsOff(recs: seq<Record>, q: string, p: SubPolicy)
    ensures Subscribed(Run(NOTHING, recs), q, p) <==> exists i :: PolicyAt(recs, i, q, p)
    decreases |recs|
  {
    if recs != [] {
      var n := |recs| - 1;
      var short := recs[..n];
      PolicyReadsOff(short, q, p);
      SubscribedStep(Run(NOTHING, short), recs[n], q, p);
      QueueReadsOff(short, q);
      ExistsPrefix(recs, n, n, q);
      hide Step, Subscribed, Overrides, Exists;
      forall i | i < n
        ensures PolicyAt(recs, i, q, p) <==> PolicyAt(short, i, q, p) && !Overrides(recs[n], q, p.subName)
      {
        PolicyAtSnoc(recs, i, q, p);
      }
      assert PolicyAt(recs, n, q, p) <==>
        recs[n].queueName == q && recs[n].op == UpdateSubPolicy(p) && Exists(recs, n, q);
    }
  }

  // ---- The pending messages ----

  /** The record puts a message under key k, or ends everything on its queue. */
  ghost predicate Renews(r: Record, k: Key) {
    r.queueName == k.queue && (r.op.DeleteQueue? || (r.op.Enqueue? && r.op.msgId == k.id && r.op.subList != map[]))
  }

  /** Record i put the message under key k that has been there since. */
  ghost predicate FiledAt(recs: seq<Record>, i: int, k: Key) {
    && 0 <= i < |recs| && recs[i].op.Enqueue? && Renews(recs[i], k)
    && forall j :: i < j < |recs| ==> !Renews(recs[j], k)
  }

  ghost predicate AckedSince(recs: seq<Record>, i: nat, k: Key, s: string) {
    exists j :: i < j < |recs| && recs[j].queueName == k.queue && recs[j].op == Ack(k.id, s)
  }

  /** The message that record i enqueued, with every subscriber of its snapshot that has been acked since. */
  ghost function Filed(recs: seq<Record>, i: int, k: Key): Message
    requires FiledAt(recs, i, k)
  {
    var op := recs[i].op;
    Message(op.content, op.subList, set s | s in op.subList && AckedSince(recs, i, k, s))
  }

  ghost predicate Waits(l: Live, k: Key, m: Message) {
    k in l.pending && l.pending[k] == m
  }

  lemma FiledAtSnoc(recs: seq<Record>, i: int, k: Key)
    requires recs != [] && i < |recs| - 1
    ensures FiledAt(recs, i, k) <==> FiledAt(recs[..|recs| - 1], i, k) && !Renews(recs[|recs| - 1], k)
  {
    hide Renews;
    var n := |recs| - 1;
    if FiledAt(recs[..n], i, k) && !Renews(recs[n], k) {
      forall j | i < j < |recs| ensures !Renews(recs[j], k) { assert j < n ==> recs[j] == recs[..n][j]; }
    }
  }

  lemma AckedSinceSnoc(recs: seq<Record>, i: int, k: Key, s: string)
    requires recs != [] && 0 <= i < |recs| - 1
    ensures
      var n := |recs| - 1;
      AckedSince(recs, i, k, s) <==>
      AckedSince(recs[..n], i, k, s) || (recs[n].queueName == k.queue && recs[n].op == Ack(k.id, s))
  {
    var n := |recs| - 1;
    if AckedSince(recs[..n], i, k, s) {
      var j :| i < j < n && recs[..n][j].queueName == k.queue && recs[..n][j].op == Ack(k.id, s);
      assert recs[j] == recs[..n][j];
    }
    if AckedSince(recs, i, k, s) {
      var j :| i < j <= n && recs[j].queueName == k.queue && recs[j].op == Ack(k.id, s);
      if j < n { assert recs[..n][j] == recs[j]; }
    }
  }

  /** What one more record does to the message that record i enqueued. */
  lemma FiledSnoc(recs: seq<Record>, i: int, k: Key)
    requires recs != [] && 0 <= i < |recs| - 1 && FiledAt(recs, i, k)
    ensures
      var n := |recs| - 1;
      && FiledAt(recs[..n], i, k)
      && var m := Filed(recs[..n], i, k);
      Filed(recs, i, k) ==
      if recs[n].queueName == k.queue && recs[n].op.Ack? && recs[n].op.ackedId == k.id then m.Settle(recs[n].op.subName)
      else m
  {
    FiledAtSnoc(recs, i, k);
    hide FiledAt, AckedSince;
    forall s
      ensures
        var n := |recs| - 1;
        AckedSince(recs, i, k, s) <==>
        AckedSince(recs[..n], i, k, s) || (recs[n].queueName == k.queue && recs[n].op == Ack(k.id, s))
    {
      AckedSinceSnoc(recs, i, k, s);
    }
  }

  lemma NewlyFiled(recs: seq<Record>, k: Key)
    requires recs != [] && recs[|recs| - 1].op.Enqueue? && Renews(recs[|recs| - 1], k)
    ensures
      var n := |recs| - 1;
      && FiledAt(recs, n, k) && recs[n].op.subList != map[]
      && Filed(recs, n, k) == Message(recs[n].op.content, recs[n].op.subList, {})
  {
    var n := |recs| - 1;
    forall s ensures !AckedSince(recs, n, k, s) {}
  }

  lemma StepElsewhere(l: Live, r: Record, k: Key)
    requires !Renews(r, k) && !(r.op.Ack? && r.queueName == k.queue && r.op.ackedId == k.id)
    ensures k in Step(l, r).pending <==> k in l.pending
    ensures k in l.pending ==> Step(l, r).pending[k] == l.pending[k]
  {
  }

  /** A message is filed under key k and waits, as it was enqueued, unless every subscriber of its snapshot has been
      acked since. */
  lemma {:induction false} FiledWaits(recs: seq<Record>, i: int, k: Key)
    requires FiledAt(recs, i, k)
    ensures
      var m, p := Filed(recs, i, k), Run(NOTHING, recs).pending;
      if m.Unsettled() then k in p && p[k] == m else k !in p
    decreases |recs|
  {
    var n := |recs| - 1;
    var l, r := Run(NOTHING, recs[..n]), recs[n];
    if i == n {
      NewlyFiled(recs, k);
      var some :| some in r.op.subList;
    } else {
      FiledSnoc(recs, i, k);
      FiledWaits(recs[..n], i, k);
      hide Filed, Run;
      if !(r.op.Ack? && r.queueName == k.queue && r.op.ackedId == k.id) {
        StepElsewhere(l, r, k);
      }
    }
  }

  lemma {:induction false} UnfiledDoesNotWait(recs: seq<Record>, k: Key)
    requires forall i :: !FiledAt(recs, i, k)
    ensures k !in Run(NOTHING, recs).pending
    decreases |recs|
  {
    if recs != [] {
      var n := |recs| - 1;
      assert !FiledAt(recs, n, k);
      if !Renews(recs[n], k) {
        forall i ensures !FiledAt(recs[..n], i, k) {
          if 0 <= i < n { FiledAtSnoc(recs, i, k); }
        }
        UnfiledDoesNotWait(recs[..n], k);
      }
    }
  }

  /** A message waits exactly when the last record to file anything under its key enqueued it and some subscriber of its
      snapshot has not been acked since; and it waits with the content, snapshot and acks that the records name. */
  lemma PendingReadsOff(recs: seq<Record>, k: Key, m: Message)
    ensures Waits(Run(NOTHING, recs), k, m) <==>
            m.Unsettled() && exists i :: FiledAt(recs, i, k) && m == Filed(recs, i, k)
  {
    hide FiledAt, Filed, Run;
    forall i | FiledAt(recs, i, k)
      ensures
        var f, p := Filed(recs, i, k), Run(NOTHING, recs).pending;
        if f.Unsettled() then k in p && p[k] == f else k !in p
    {
      FiledWaits(recs, i, k);
    }
    if forall i :: !FiledAt(recs, i, k) {
      UnfiledDoesNotWait(recs, k);
    } else {
      var i :| FiledAt(recs, i, k);
    }
  }
}
