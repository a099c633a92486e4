/**
  The broker's queues while it serves and after a restart: RestoreWAL rebuilds
  exactly the live state, up to the limit of 128 queues that CreateQueue applies.
 */
module Restore {
  import opened Records
  import LS = LiveState
  import R = Replay
  import L = ReplayLaw
  import opened Coordination

  const MAX_QUEUES: nat := 128

  datatype QueueMsg = QueueMsg(id: string, message: Message)

  /** Exactly the unsettled messages of `messages`, each once, in some order. */
  ghost predicate Lists(s: seq<QueueMsg>, messages: map<string, Message>) {
    && (forall i :: 0 <= i < |s| ==>
          s[i].id in messages && messages[s[i].id] == s[i].message && s[i].message.Unsettled())
    && (forall i, j :: 0 <= i < j < |s| ==> s[i].id != s[j].id)
    && (forall id :: id in messages && messages[id].Unsettled() ==> QueueMsg(id, messages[id]) in s)
  }

  /** The inner loop: hasUnackedSubs decides which messages are enqueued again. */
  method RestoreQueue(messages: map<string, Message>) returns (s: seq<QueueMsg>)
    ensures Lists(s, messages)
  {
    s := [];
    var todo := messages.Keys;
    ghost var done: map<string, Message> := map[];
    while todo != {}
      invariant todo <= messages.Keys && done == map id | id in messages && id !in todo :: messages[id]
      invariant Lists(s, done)
      decreases todo
    {
      var id :| id in todo;
      ghost var before := done;
      todo := todo - {id};
      done := done[id := messages[id]];
      var unacked := HasUnackedSubs(messages[id]);
      if unacked {
        ListsSnoc(s, before, id, messages[id]);
        s := s + [QueueMsg(id, messages[id])];
      } else {
        assert Lists(s, done);
      }
    }
    assert done == messages;
  }

  lemma ListsSnoc(s: seq<QueueMsg>, messages: map<string, Message>, id: string, m: Message)
    requires Lists(s, messages) && id !in messages && m.Unsettled()
    ensures Lists(s + [QueueMsg(id, m)], messages[id := m])
  {
    var next := s + [QueueMsg(id, m)];
    assert next[|s|] == QueueMsg(id, m);
  }

  method HasUnackedSubs(m: Message) returns (unacked: bool)
    ensures unacked == m.Unsettled()
  {
    var todo := m.subList.Keys;
    while todo != {}
      invariant todo <= m.subList.Keys && m.subList.Keys - todo <= m.acked
      decreases todo
    {
      var s :| s in todo;
      if s !in m.acked {
        return true;
      }
      todo := todo - {s};
    }
    return false;
  }

  class Broker {
    const cord: Coordinator
    var queues: map<string, seq<QueueMsg>>
    var numQueues: nat

    /** The broker's queues are the catalog's, and there are at most 128. */
    ghost predicate Valid()
      reads this, cord, cord.cat
    {
      cord.Valid() && queues.Keys == cord.cat.queues.Keys && numQueues == |queues| <= MAX_QUEUES
    }

    constructor (cord: Coordinator)
      ensures this.cord == cord && queues == map[] && numQueues == 0
    {
      this.cord, queues, numQueues := cord, map[], 0;
    }

    /** CreateQueue: refuses a known name and a 129th queue; logs unless the queue comes from the log. */
    method CreateQueue(name: string, fromWAL: bool) returns (ok: bool)
      requires numQueues == |queues| && (!fromWAL ==> cord.Valid())
      modifies this, cord, cord.cat
      ensures numQueues == |queues|
      ensures ok <==> name !in old(queues) && |old(queues)| < MAX_QUEUES
      ensures queues == if ok then old(queues)[name := []] else old(queues)
      ensures cord.log == old(cord.log) +
                if ok && !fromWAL then [Record(|old(cord.log)| + 1, name, Op.CreateQueue)] else []
      ensures fromWAL ==> cord.cat.queues == old(cord.cat.queues)
      ensures !fromWAL && old(Valid()) ==> Valid() && AsGoodAs(cord.log, old(cord.log))
    {
      if name in queues || numQueues >= MAX_QUEUES {
        return false;
      }
      if !fromWAL {
        LS.RunSnoc(LS.NOTHING, cord.log, Record(|cord.log| + 1, name, Op.CreateQueue));
        var _ := cord.CreateQueue(name);
      }
      queues := queues[name := []];
      numQueues := numQueues + 1;
      return true;
    }

    /** DeleteQueue: logs the deletion of a queue there is. */
    method DeleteQueue(name: string) returns (ok: bool)
      requires Valid()
      modifies this, cord, cord.cat
      ensures Valid() && AsGoodAs(cord.log, old(cord.log)) && ok == (name in old(queues))
      ensures queues == old(queues) - {name}
      ensures cord.log == old(cord.log) + if ok then [Record(|old(cord.log)| + 1, name, Op.DeleteQueue)] else []
    {
      if name !in queues {
        assert queues - {name} == queues;
        return false;
      }
      hide LS.Run, LS.Step, LS.ServedFrom, AllKeyed, AsGoodAs;
      DeletionDrops(cord.log, Record(|cord.log| + 1, name, Op.DeleteQueue));
      SizeWithout(queues, name);
      var done := cord.DeleteQueue(name);
      queues := queues - {name};
      numQueues := numQueues - 1;
      return done;
    }

    /** Enqueue: logs the message with the snapshot of the queue's subscribers, and adds it to the queue. */
    method Enqueue(queueName: string, msgId: string, payload: string) returns (ok: bool)
      requires Valid() && forall k :: k in cord.State().pending ==> k.id != msgId
      modifies this, cord
      ensures Valid() && AsGoodAs(cord.log, old(cord.log)) && ok == (queueName in old(queues))
      ensures !ok ==> queues == old(queues) && cord.log == old(cord.log)
      ensures ok ==>
                && queueName in cord.cat.queues
                && var subs := cord.cat.queues[queueName];
                && cord.log == old(cord.log) +
                   [Record(|old(cord.log)| + 1, queueName, Op.Enqueue(msgId, payload, subs))]
                && var line := old(queues)[queueName] + [QueueMsg(msgId, Message(payload, subs, {}))];
                   queues == old(queues)[queueName := line]
    {
      if queueName !in queues {
        return false;
      }
      hide LS.Run, LS.ServedFrom, AllKeyed, AsGoodAs;
      var subs := cord.Enqueue(queueName, msgId, payload);
      var line := queues[queueName] + [QueueMsg(msgId, Message(payload, subs.value, {}))];
      SameSize(queues, queueName, line);
      queues := queues[queueName := line];
      return true;
    }

    /** AddSubscriber and UpdateSubscriber. */
    method AddSubscriber(policy: SubPolicy, queueName: string) returns (ok: bool)
      requires Valid()
      modifies cord, cord.cat
      ensures Valid() && AsGoodAs(cord.log, old(cord.log)) && ok == (queueName in queues)
      ensures cord.log == old(cord.log) +
                if ok then [Record(|old(cord.log)| + 1, queueName, Op.UpdateSubPolicy(policy))] else []
    {
      hide LS.Run, LS.Step, LS.ServedFrom, AllKeyed, AsGoodAs;
      OthersKeepQueues(cord.log, Record(|cord.log| + 1, queueName, Op.UpdateSubPolicy(policy)));
      ok := cord.UpdateSubPolicy(queueName, policy);
      assert old(cord.log) + [] == old(cord.log);
    }

    method RemoveSubscriber(subName: string, queueName: string) returns (ok: bool)
      requires Valid()
      modifies cord, cord.cat
      ensures Valid() && AsGoodAs(cord.log, old(cord.log)) && ok == (queueName in queues)
      ensures cord.log == old(cord.log) +
                if ok then [Record(|old(cord.log)| + 1, queueName, Op.DeleteSubPolicy(SubPolicy(subName, "", 0)))]
                else []
    {
      hide LS.Run, LS.Step, LS.ServedFrom, AllKeyed, AsGoodAs;
      OthersKeepQueues(cord.log, Record(|cord.log| + 1, queueName, Op.DeleteSubPolicy(SubPolicy(subName, "", 0))));
      ok := cord.DeleteSubPolicy(queueName, subName);
      assert old(cord.log) + [] == old(cord.log);
    }

    /** What CreateQueue hands a queue's worker to ack with: the broker stays valid whenever the id is not one that is
        pending on another queue, however late the ack is. */
    method OnAck(name: string, msgId: string, subName: string)
      requires Valid()
      modifies cord
      ensures cord.log == old(cord.log) + [Record(|old(cord.log)| + 1, name, Op.Ack(msgId, subName))]
      ensures Valid() <==> LS.Served(old(cord.State()), cord.log[|old(cord.log)|])
      ensures LS.LegalLog(cord.log) <==>
                old(LS.LegalLog(cord.log)) && LS.Key(name, msgId) in old(cord.State()).pending
    {
      hide LS.Run, LS.ServedFrom, LS.LegalFrom, LS.Served, AllKeyed;
      cord.Ack(name, msgId, subName);
    }

    method CreateAll(names: set<string>)
      requires queues == map[] && numQueues == 0
      modifies this, cord, cord.cat
      ensures cord.log == old(cord.log) && cord.cat.queues == old(cord.cat.queues)
      ensures numQueues == |queues| && queues.Keys <= names && (forall q :: q in queues ==> queues[q] == [])
      ensures |names| <= MAX_QUEUES ==> queues.Keys == names
      ensures |names| > MAX_QUEUES ==> |queues| == MAX_QUEUES
    {
      hide Broker.Valid;
      hide Created;
      var todo := names;
      NothingCreated(names);
      while todo != {}
        invariant cord.log == old(cord.log) && cord.cat.queues == old(cord.cat.queues)
        invariant todo <= names && Created(queues, names, todo) && numQueues == |queues|
        decreases todo
      {
        var name :| name in todo;
        CreatedNext(queues, names, todo, name);
        todo := todo - {name};
        var ok := CreateQueue(name, true);
      }
      CreatedAll(queues, names);
    }

    /** RestoreWAL: every restored queue lists exactly its pending messages; all
        queues of the catalog are restored if and only if there are at most 128. */
    method RestoreWAL(st: R.State)
      requires queues == map[] && numQueues == 0
      modifies this, cord, cord.cat
      ensures cord.log == old(cord.log) && cord.cat.queues == old(cord.cat.queues) && numQueues == |queues|
      ensures queues.Keys <= st.catalog.Keys
      ensures queues.Keys == st.catalog.Keys <==> |st.catalog| <= MAX_QUEUES
      ensures |st.catalog| > MAX_QUEUES ==> |queues| == MAX_QUEUES
      ensures forall q :: q in queues ==> Restored(queues[q], q, R.LiveOf(st))
    {
      hide Lists, Restored, R.LiveOf, Broker.Valid;
      CreateAll(st.catalog.Keys);
      ghost var names := queues.Keys;
      var todo := st.queues.Keys;
      while todo != {}
        invariant cord.log == old(cord.log) && cord.cat.queues == old(cord.cat.queues)
        invariant todo <= st.queues.Keys && queues.Keys == names && numQueues == |queues|
        invariant forall q :: q in names ==>
                    if q in st.queues && q !in todo then Lists(queues[q], st.queues[q]) else queues[q] == []
        decreases todo
      {
        var q :| q in todo;
        todo := todo - {q};
        if q in queues {
          var s := RestoreQueue(st.queues[q]);
          assert queues[q] + s == s;
          SameSize(queues, q, queues[q] + s);
          queues := queues[q := queues[q] + s];
        }
      }
      forall q | q in queues ensures Restored(queues[q], q, R.LiveOf(st)) {
        RestoredIfListed(queues[q], q, st);
      }
    }
  }

  /** What creating the queues of `names` has come to when those in `todo` are still to come. */
  ghost predicate Created(queues: map<string, seq<QueueMsg>>, names: set<string>, todo: set<string>) {
    && queues.Keys <= names - todo && |queues| <= MAX_QUEUES
    && (forall q :: q in queues ==> queues[q] == [])
    && (|queues| < MAX_QUEUES ==> queues.Keys == names - todo)
  }

  lemma NothingCreated(names: set<string>)
    ensures Created(map[], names, names)
  {
    assert names - names == {};
  }

  lemma CreatedNext(queues: map<string, seq<QueueMsg>>, names: set<string>, todo: set<string>, name: string)
    requires todo <= names && Created(queues, names, todo) && name in todo
    ensures
      var next := if name !in queues && |queues| < MAX_QUEUES then queues[name := []] else queues;
      Created(next, names, todo - {name})
  {
    assert name !in queues;
    assert |queues[name := []]| == |queues| + 1;
    assert queues.Keys == names - todo ==> queues[name := []].Keys == names - (todo - {name});
  }

  lemma CreatedAll(queues: map<string, seq<QueueMsg>>, names: set<string>)
    requires Created(queues, names, {})
    ensures queues.Keys <= names && (forall q :: q in queues ==> queues[q] == [])
    ensures |names| <= MAX_QUEUES ==> queues.Keys == names
    ensures |names| > MAX_QUEUES ==> |queues| == MAX_QUEUES
  {
    assert names - {} == names && |queues| == |queues.Keys|;
    SizeBound(queues.Keys, names);
  }

  /** Only creation and deletion change which queues the catalog has. */
  lemma OthersKeepQueues(log: seq<Record>, r: Record)
    requires !r.op.CreateQueue? && !r.op.DeleteQueue?
    ensures LS.Run(LS.NOTHING, log + [r]).catalog.Keys == LS.Run(LS.NOTHING, log).catalog.Keys
  {
    LS.RunSnoc(LS.NOTHING, log, r);
  }

  lemma DeletionDrops(log: seq<Record>, r: Record)
    requires r.op.DeleteQueue?
    ensures LS.Run(LS.NOTHING, log + [r]).catalog.Keys == LS.Run(LS.NOTHING, log).catalog.Keys - {r.queueName}
  {
    LS.RunSnoc(LS.NOTHING, log, r);
  }

  lemma SameSize(m: map<string, seq<QueueMsg>>, k: string, v: seq<QueueMsg>)
    requires k in m
    ensures |m[k := v]| == |m| && m[k := v].Keys == m.Keys
  {
    assert m[k := v].Keys == m.Keys && |m[k := v]| == |m[k := v].Keys| && |m| == |m.Keys|;
  }

  lemma SizeWithout(m: map<string, seq<QueueMsg>>, k: string)
    requires k in m
    ensures |m - {k}| == |m| - 1
  {
    assert m == (m - {k})[k := m[k]];
  }

  lemma {:induction false} SizeBound(a: set<string>, b: set<string>)
    requires a <= b
    ensures |a| <= |b| && (|a| == |b| ==> a == b)
  {
    assert b == a + (b - a);
  }

  /** The queue's messages are exactly its pending ones, each once. */
  ghost predicate Restored(s: seq<QueueMsg>, q: string, l: LS.Live) {
    && (forall i :: 0 <= i < |s| ==> LS.Key(q, s[i].id) in l.pending && l.pending[LS.Key(q, s[i].id)] == s[i].message)
    && (forall i, j :: 0 <= i < j < |s| ==> s[i].id != s[j].id)
    && (forall k :: k in l.pending && k.queue == q ==> QueueMsg(k.id, l.pending[k]) in s)
  }

  lemma RestoredIfListed(s: seq<QueueMsg>, q: string, st: R.State)
    requires q in st.catalog && if q in st.queues then Lists(s, st.queues[q]) else s == []
    ensures Restored(s, q, R.LiveOf(st))
  {
    var l := R.LiveOf(st);
    forall i | 0 <= i < |s| ensures LS.Key(q, s[i].id) in l.pending && l.pending[LS.Key(q, s[i].id)] == s[i].message {
      R.LivePending(st, LS.Key(q, s[i].id));
    }
    forall k | k in l.pending && k.queue == q ensures QueueMsg(k.id, l.pending[k]) in s {
      R.LivePending(st, k);
    }
  }

  /** A restart from the log of a broker that was only served through its own operations. It comes up if and only if
      the log replays, and it does if no ack was for a message that nobody waited for. Then every queue is back, each
      with exactly its pending messages: the limit of 128 never bites, because creation kept it. */
  method Restart(b: Broker) returns (ok: bool, b': Broker)
    requires b.Valid()
    ensures ok <==> L.AllReplay(b.cord.log)
    ensures LS.LegalLog(b.cord.log) ==> ok
    ensures fresh(b')
    ensures ok ==> b'.queues.Keys == b.queues.Keys
    ensures ok ==> forall q :: q in b'.queues ==> Restored(b'.queues[q], q, b.cord.State())
  {
    hide LS.Run, LS.ServedFrom, LS.LegalFrom, L.AllReplay;
    L.ReplaysIff(b.cord.log);
    R.LiveOfInit();
    R.ServedRun(R.INIT, b.cord.log);
    if LS.LegalLog(b.cord.log) { R.LegalLogRecovers(b.cord.log); }
    var cat, deli;
    ok, cat, deli := ReplayLog(b.cord.log);
    var cord := new Coordinator();
    b' := new Broker(cord);
    if ok {
      KeysCount(b.queues, cat.queues);
      b'.RestoreWAL(R.State(cat.queues, deli.queues));
    }
  }

  lemma KeysCount<V, W>(a: map<string, V>, b: map<string, W>)
    requires a.Keys == b.Keys
    ensures |a| == |b|
  {
    assert |a| == |a.Keys| && |b| == |b.Keys|;
  }
}
