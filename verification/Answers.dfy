/**
  What the replicated store answers, read off the committed log, and that the
  answer to an enqueue is the message a leader may schedule right away.
 */
module Answers {
  import opened Storage
  import opened History
  import opened Worker
  import opened Leadership

  /** What `c` answers when it is applied after `log`. */
  function AnswerTo(log: seq<Command>, c: Command): Response {
    Apply(Run(EMPTY, log), c).response
  }

  /** The commands on queues and policies, in terms of which queues the log has created and not deleted. */
  lemma CatalogAnswers(log: seq<Command>, c: Command)
    requires c.CreateQueue? || c.DeleteQueue? || c.PutSubPolicy? || c.DeleteSubPolicy?
    ensures
      var live := LiveAt(log, |log|, c.queue);
      AnswerTo(log, c) ==
      if c.CreateQueue? then (if live then QueueExists else NoError) else if live then NoError else QueueNotFound
  {
    QueueMatchesLog(log, c.queue);
  }

  /** Acks never fail, and an entry that is not handled is rejected. */
  lemma OtherAnswers(log: seq<Command>, c: Command)
    requires c.Ack? || c.Undecodable?
    ensures AnswerTo(log, c) == if c.Ack? then NoError else Rejected
  {
  }

  /** No earlier command enqueued this id on this queue. */
  ghost predicate NewId(log: seq<Command>, q: string, id: string) {
    forall i :: 0 <= i < |log| && log[i].Enqueue? ==> log[i].queue != q || log[i].msgID != id
  }

  lemma NewIsNotHeld(log: seq<Command>, q: string, id: string)
    requires NewId(log, q, id)
    ensures !Holds(Run(EMPTY, log), q, id)
  {
    if Holds(Run(EMPTY, log), q, id) { var _ := HeldWasEnqueued(log, q, id); }
  }

  /** An enqueue on a queue that the log does not have answers that, and changes nothing. */
  lemma EnqueueOnNoQueue(log: seq<Command>, c: Command)
    requires c.Enqueue?
    ensures AnswerTo(log, c) == QueueNotFound <==> !LiveAt(log, |log|, c.queue)
    ensures !LiveAt(log, |log|, c.queue) ==> Run(EMPTY, log + [c]) == Run(EMPTY, log)
  {
    QueueMatchesLog(log, c.queue);
    assert (log + [c])[..|log|] == log;
  }

  /** An enqueue of a message that is not held answers a message with the command's own id, payload and snapshot, that
      nobody has acked. If it is addressed to someone, that is what the store holds from then on; if not, nothing is
      held. An id that was never enqueued before is not held. */
  lemma EnqueueAnswersNew(log: seq<Command>, c: Command)
    requires c.Enqueue? && LiveAt(log, |log|, c.queue) && !Holds(Run(EMPTY, log), c.queue, c.msgID)
    ensures AnswerTo(log, c).Enqueued?
    ensures
      var m := AnswerTo(log, c).message;
      && m.msgID == c.msgID && m.payload == c.payload && m.subList == c.subList && m.acked == {}
      && m.seqNo == Run(EMPTY, log).nextSeq
      && (Holds(Run(EMPTY, log + [c]), c.queue, c.msgID) <==> c.subList != map[])
      && (c.subList != map[] ==> MessageAt(Run(EMPTY, log + [c]), c.queue, c.msgID) == m)
  {
    QueueMatchesLog(log, c.queue);
    assert (log + [c])[..|log|] == log;
  }

  /** A repeated enqueue of a message that is held answers that message, acks included, and changes nothing. */
  lemma EnqueueAnswersHeld(log: seq<Command>, c: Command)
    requires c.Enqueue? && Holds(Run(EMPTY, log), c.queue, c.msgID)
    ensures AnswerTo(log, c) == Enqueued(MessageAt(Run(EMPTY, log), c.queue, c.msgID))
    ensures Run(EMPTY, log + [c]) == Run(EMPTY, log)
  {
    assert (log + [c])[..|log|] == log;
  }

  /** What the server schedules right after the commit is what a sweep would present: the answer to an enqueue of a
      message for someone, as a copy, is the message as storage then holds it. */
  lemma AnswerIsPresented(log: seq<Command>, c: Command)
    requires c.Enqueue? && AnswerTo(log, c).Enqueued? && c.subList != map[]
    ensures Holds(Run(EMPTY, (log + [c])[..|log| + 1]), c.queue, c.msgID)
    ensures CopyOf(c.queue, AnswerTo(log, c).message) == Presented(log + [c], |log| + 1, c.queue, c.msgID)
  {
    assert (log + [c])[..|log| + 1] == log + [c];
    QueueMatchesLog(log, c.queue);
    if Holds(Run(EMPTY, log), c.queue, c.msgID) {
      EnqueueAnswersHeld(log, c);
    } else {
      EnqueueOnNoQueue(log, c);
      EnqueueAnswersNew(log, c);
    }
  }

  /** And so it is owed to everyone it is addressed to. */
  lemma NewIsOwedToAll(log: seq<Command>, c: Command, sub: string)
    requires c.Enqueue? && LiveAt(log, |log|, c.queue) && NewId(log, c.queue, c.msgID)
    ensures Owed(Run(EMPTY, log + [c]), c.queue, c.msgID, sub) <==> sub in c.subList
  {
    NewIsNotHeld(log, c.queue, c.msgID);
    EnqueueAnswersNew(log, c);
  }
}
