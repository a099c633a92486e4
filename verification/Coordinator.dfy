/**
  The serving side of durable-mq: catalog and delivery as objects updated in
  place, the startup replay over them, and the operations that append a record
  and then apply it.
 */
module Coordination {
  import opened Options
  import opened Records
  import LS = LiveState
  import R = Replay
  import L = ReplayLaw

  class Catalog {
    var queues: map<string, map<string, SubPolicy>>

    constructor ()
      ensures queues == map[]
    {
      queues := map[];
    }

    /** ProcessRecord; false stands for the error it returns. */
    method ProcessRecord(rec: Record) returns (ok: bool)
      requires !rec.op.Enqueue? && !rec.op.Ack?
      modifies this
      ensures
        var next := R.Step(R.State(old(queues), map[]), rec);
        ok == next.Some? && queues == if ok then next.value.catalog else old(queues)
    {
      var q := rec.queueName;
      match rec.op {
        case CreateQueue => queues := queues[q := map[]];
        case DeleteQueue => queues := queues - {q};
        case UpdateSubPolicy(p) =>
          if q !in queues {
            return false;
          }
          queues := queues[q := queues[q][p.subName := p]];
        case DeleteSubPolicy(p) =>
          if q !in queues {
            return false;
          }
          queues := queues[q := queues[q] - {p.subName}];
        case BeginCheckpoint =>
        case EndCheckpoint(_, _) =>
        case Undecodable(kind) => return kind == EndPayload;
        case Unknown => return false;
      }
      return true;
    }
  }

  class Delivery {
    var queues: map<string, map<string, Message>>

    constructor ()
      ensures queues == map[]
    {
      queues := map[];
    }

    method ProcessEnqueue(rec: Record)
      requires rec.op.Enqueue?
      modifies this
      ensures queues == R.Enqueued(old(queues), rec.queueName, rec.op.msgId,
                                   Message(rec.op.content, rec.op.subList, {}))
    {
      var q := rec.queueName;
      if q !in queues {
        queues := queues[q := map[]];
      }
      queues := queues[q := queues[q][rec.op.msgId := Message(rec.op.content, rec.op.subList, {})]];
    }

    /** ProcessAck: an error for a missing queue or message; a name outside the snapshot is ignored. */
    method ProcessAck(rec: Record) returns (ok: bool)
      requires rec.op.Ack?
      modifies this
      ensures
        var q, id := rec.queueName, rec.op.ackedId;
        if q in old(queues) && id in old(queues)[q] then
          ok && queues == R.Enqueued(old(queues), q, id, old(queues)[q][id].Settle(rec.op.subName))
        else !ok && queues == old(queues)
    {
      var q, id, s := rec.queueName, rec.op.ackedId, rec.op.subName;
      if q !in queues {
        return false;
      }
      if id !in queues[q] {
        return false;
      }
      var info := queues[q][id];
      if s in info.subList {
        info := info.(acked := info.acked + {s});
      }
      queues := queues[q := queues[q][id := info]];
      return true;
    }

    method DeleteQueueMessages(queueName: string)
      modifies this
      ensures queues == old(queues) - {queueName}
    {
      queues := queues - {queueName};
    }
  }

  /** One turn of the replay loop. */
  method ReplayOne(cat: Catalog, deli: Delivery, rec: Record) returns (ok: bool)
    modifies cat, deli
    ensures
      var next := R.Step(R.State(old(cat.queues), old(deli.queues)), rec);
      ok == next.Some? && (ok ==> R.State(cat.queues, deli.queues) == next.value)
  {
    match rec.op {
      case Enqueue(_, _, _) =>
        deli.ProcessEnqueue(rec);
        ok := true;
      case Ack(_, _) =>
        ok := deli.ProcessAck(rec);
      case _ =>
        ok := cat.ProcessRecord(rec);
    }
    if rec.op.DeleteQueue? {
      deli.DeleteQueueMessages(rec.queueName);
    }
  }

  /** ReplayLog: succeeds exactly when every record replays, and then holds the replayed state. */
  method ReplayLog(records: seq<Record>) returns (ok: bool, cat: Catalog, deli: Delivery)
    ensures fresh(cat) && fresh(deli)
    ensures ok == R.Run(R.INIT, records).Some?
    ensures ok ==> R.State(cat.queues, deli.queues) == R.Run(R.INIT, records).value
  {
    cat := new Catalog();
    deli := new Delivery();
    for i := 0 to |records|
      invariant R.Run(R.INIT, records[..i]) == Some(R.State(cat.queues, deli.queues))
    {
      assert records[..i + 1][..i] == records[..i];
      ok := ReplayOne(cat, deli, records[i]);
      if !ok {
        FailureSticks(records, i + 1);
        return;
      }
    }
    assert records[..|records|] == records;
    ok := true;
  }

  lemma {:induction false} FailureSticks(records: seq<Record>, i: nat)
    requires i <= |records| && R.Run(R.INIT, records[..i]).None?
    ensures R.Run(R.INIT, records).None?
  {
    R.RunConcat(R.INIT, records[..i], records[i..]);
    assert records[..i] + records[i..] == records;
  }

  // ---- Serving ----

  ghost predicate AllKeyed(catalog: map<string, map<string, SubPolicy>>) {
    forall q :: q in catalog ==> Keyed(catalog[q])
  }

  /** The catalog is the log's own; the log is legal except perhaps for its acks, which nobody checks. */
  ghost predicate Serves(log: seq<Record>, catalog: map<string, map<string, SubPolicy>>) {
    LS.ServedLog(log) && catalog == LS.Run(LS.NOTHING, log).catalog && AllKeyed(catalog)
  }

  /** The log `next` is as legal as `log` is, and replays if `log` does. */
  ghost predicate AsGoodAs(next: seq<Record>, log: seq<Record>) {
    (LS.LegalLog(log) ==> LS.LegalLog(next)) && (R.Recovered(log).Some? ==> R.Recovered(next).Some?)
  }

  lemma ServesOn(log: seq<Record>, r: Record)
    requires Serves(log, LS.Run(LS.NOTHING, log).catalog) && LS.Served(LS.Run(LS.NOTHING, log), r)
    ensures Serves(log + [r], LS.Step(LS.Run(LS.NOTHING, log), r).catalog)
  {
    LS.RunSnoc(LS.NOTHING, log, r);
    hide LS.Run, LS.ServedFrom, LS.Served;
    var l := LS.Run(LS.NOTHING, log);
    forall q | q in LS.Step(l, r).catalog ensures Keyed(LS.Step(l, r).catalog[q]) {
      if q in l.catalog { assert Keyed(l.catalog[q]); }
    }
  }

  /** Nothing but an ack can make a served log worse. */
  lemma OthersAreAsGood(log: seq<Record>, r: Record)
    requires LS.ServedLog(log) && LS.Served(LS.Run(LS.NOTHING, log), r) && !r.op.Ack?
    ensures AsGoodAs(log + [r], log)
  {
    LS.RunSnoc(LS.NOTHING, log, r);
    hide LS.Run, LS.ServedFrom, LS.LegalFrom;
    if R.Recovered(log).Some? {
      R.LiveOfInit();
      R.ServedRun(R.INIT, log);
      R.ServedSimulates(R.Run(R.INIT, log).value, r);
      assert (log + [r])[..|log|] == log;
    }
  }

  lemma CatalogStep(l: LS.Live, r: Record)
    requires
      || r.op.CreateQueue?
      || (r.queueName in l.catalog && (r.op.DeleteQueue? || r.op.UpdateSubPolicy? || r.op.DeleteSubPolicy?))
    ensures
      var next := R.Step(R.State(l.catalog, map[]), r);
      next.Some? && next.value.catalog == LS.Step(l, r).catalog && LS.Served(l, r)
  {
  }

  lemma AckServes(log: seq<Record>, r: Record)
    requires Serves(log, LS.Run(LS.NOTHING, log).catalog) && r.op.Ack?
    ensures Serves(log + [r], LS.Run(LS.NOTHING, log).catalog) <==> LS.Served(LS.Run(LS.NOTHING, log), r)
    ensures LS.LegalLog(log + [r]) <==>
            LS.LegalLog(log) && LS.Key(r.queueName, r.op.ackedId) in LS.Run(LS.NOTHING, log).pending
  {
    LS.RunSnoc(LS.NOTHING, log, r);
  }

  class Coordinator {
    var log: seq<Record>
    const cat: Catalog

    ghost predicate Valid()
      reads this, cat
    {
      Serves(log, cat.queues)
    }

    /** The live state the log stands for. */
    ghost function State(): LS.Live
      reads this
    {
      LS.Run(LS.NOTHING, log)
    }

    constructor ()
      ensures Valid() && log == [] && fresh(cat)
    {
      log := [];
      cat := new Catalog();
    }

    /** Append and apply, for the records that the catalog processes. */
    method Apply(queueName: string, op: Op) returns (ok: bool)
      requires Valid()
      requires op.CreateQueue? ||
               (queueName in cat.queues && (op.DeleteQueue? || op.UpdateSubPolicy? || op.DeleteSubPolicy?))
      modifies this, cat
      ensures Valid() && AsGoodAs(log, old(log))
      ensures ok && log == old(log) + [Record(|old(log)| + 1, queueName, op)]
    {
      hide LS.ServedFrom, LS.Run, LS.Step, LS.Served, AsGoodAs;
      var rec := Record(|log| + 1, queueName, op);
      CatalogStep(State(), rec);
      ServesOn(log, rec);
      OthersAreAsGood(log, rec);
      LS.RunSnoc(LS.NOTHING, log, rec);
      log := log + [rec];
      ok := cat.ProcessRecord(rec);
    }

    method CreateQueue(queueName: string) returns (ok: bool)
      requires Valid()
      modifies this, cat
      ensures Valid() && AsGoodAs(log, old(log))
      ensures ok && log == old(log) + [Record(|old(log)| + 1, queueName, Op.CreateQueue)]
    {
      ok := Apply(queueName, Op.CreateQueue);
    }

    method DeleteQueue(queueName: string) returns (ok: bool)
      requires Valid()
      modifies this, cat
      ensures Valid() && AsGoodAs(log, old(log)) && ok == (queueName in old(State()).catalog)
      ensures log == old(log) + if ok then [Record(|old(log)| + 1, queueName, Op.DeleteQueue)] else []
    {
      if queueName !in cat.queues {
        return false;
      }
      ok := Apply(queueName, Op.DeleteQueue);
    }

    method UpdateSubPolicy(queueName: string, policy: SubPolicy) returns (ok: bool)
      requires Valid()
      modifies this, cat
      ensures Valid() && AsGoodAs(log, old(log)) && ok == (queueName in old(State()).catalog)
      ensures log == old(log) + if ok then [Record(|old(log)| + 1, queueName, Op.UpdateSubPolicy(policy))] else []
    {
      if queueName !in cat.queues {
        return false;
      }
      ok := Apply(queueName, Op.UpdateSubPolicy(policy));
    }

    method DeleteSubPolicy(queueName: string, subName: string) returns (ok: bool)
      requires Valid()
      modifies this, cat
      ensures Valid() && AsGoodAs(log, old(log)) && ok == (queueName in old(State()).catalog)
      ensures log == old(log) +
                if ok then [Record(|old(log)| + 1, queueName, Op.DeleteSubPolicy(SubPolicy(subName, "", 0)))] else []
    {
      if queueName !in cat.queues {
        return false;
      }
      ok := Apply(queueName, Op.DeleteSubPolicy(SubPolicy(subName, "", 0)));
    }

    /** Enqueue snapshots the queue's subscribers into the record; ids are fresh UUIDs. */
    method Enqueue(queueName: string, msgId: string, content: string) returns (subList: Option<map<string, SubPolicy>>)
      requires Valid() && forall k :: k in State().pending ==> k.id != msgId
      modifies this
      ensures Valid() && AsGoodAs(log, old(log)) && (subList.Some? <==> queueName in old(State()).catalog)
      ensures subList.Some? ==>
                && subList.value == old(State()).catalog[queueName]
                && log == old(log) + [Record(|old(log)| + 1, queueName, Op.Enqueue(msgId, content, subList.value))]
      ensures subList.None? ==> log == old(log)
    {
      if queueName !in cat.queues {
        return None;
      }
      subList := Some(cat.queues[queueName]);
      var rec := Record(|log| + 1, queueName, Op.Enqueue(msgId, content, subList.value));
      ServesOn(log, rec);
      OthersAreAsGood(log, rec);
      log := log + [rec];
    }

    /** Ack appends without a check. The catalog stays the log's own unless the id is pending on another queue, a legal
        log stays legal if and only if the message is still pending, and a log that replays goes on replaying if and
        only if the message was enqueued since its queue's last deletion. */
    method Ack(queueName: string, msgId: string, subName: string)
      modifies this
      ensures log == old(log) + [Record(|old(log)| + 1, queueName, Op.Ack(msgId, subName))]
      ensures old(Valid()) ==>
                && (Valid() <==> LS.Served(old(State()), log[|old(log)|]))
                && (LS.LegalLog(log) <==> old(LS.LegalLog(log)) && LS.Key(queueName, msgId) in old(State()).pending)
      ensures R.Recovered(old(log)).Some? ==>
                (R.Recovered(log).Some? <==> L.Known(old(log), |old(log)|, queueName, msgId))
    {
      hide LS.Served, LS.ServedFrom, LS.LegalFrom, LS.Run, R.Recovered, L.Known;
      var rec := Record(|log| + 1, queueName, Op.Ack(msgId, subName));
      if Valid() { AckServes(log, rec); }
      if R.Recovered(log).Some? { L.AckReplaysIffKnown(log, rec); }
      log := log + [rec];
    }
  }
}
