/**
  The records of durable-mq's write-ahead log, with their payloads already
  decoded, and the message state that replay builds from them.
 */
module Records {

  /** A subscriber's delivery policy. */
  datatype SubPolicy = SubPolicy(subName: string, subURL: string, numberOfRetries: int)

  /** The operation types whose payload is JSON and can therefore fail to decode. */
  datatype PayloadKind = EnqueuePayload | AckPayload | UpdatePayload | DeletePayload | EndPayload

  /** One operation. `Undecodable` is a known operation type with a payload that
      does not decode; `Unknown` is an operation type outside 1..8. */
  datatype Op =
    | Enqueue(msgId: string, content: string, subList: map<string, SubPolicy>)
    | Ack(ackedId: string, subName: string)
    | CreateQueue
    | DeleteQueue
    | UpdateSubPolicy(policy: SubPolicy)
    | DeleteSubPolicy(removed: SubPolicy)
    | BeginCheckpoint
    | EndCheckpoint(fileName: string, fileChecksum: string)
    | Undecodable(kind: PayloadKind)
    | Unknown

  datatype Record = Record(lsn: nat, queueName: string, op: Op)

  /** What is known of one message: its snapshot of subscribers, and those of them that settled. */
  datatype Message = Message(content: string, subList: map<string, SubPolicy>, acked: set<string>) {

    /** Some subscriber of the snapshot has not settled. */
    predicate Unsettled() {
      !(subList.Keys <= acked)
    }

    /** Records the ack of one subscriber; names outside the snapshot change nothing. */
    function Settle(subName: string): Message {
      if subName in subList then this.(acked := acked + {subName}) else this
    }
  }

  /** Every key of a subscriber list is the name inside the policy it maps to. */
  ghost predicate Keyed(subList: map<string, SubPolicy>) {
    forall s :: s in subList ==> subList[s].subName == s
  }
}
