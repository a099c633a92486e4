/**
  Snapshot and restore of the replicated store, and the store as the object
  that the state machine updates in place.
 */
module Snapshots {
  import opened Options
  import opened Storage
  import N = Segments

  datatype SnapshotQueue = SnapshotQueue(name: string, subs: map<string, SubPolicy>, messages: seq<MessageState>)

  datatype Snapshot = Snapshot(nextSeq: nat, queues: seq<SnapshotQueue>)

  // ---- Sorting ----

  ghost predicate Asymmetric<T(!new)>(less: (T, T) -> bool) {
    forall x, y :: less(x, y) ==> !less(y, x)
  }

  ghost predicate Sorted<T>(less: (T, T) -> bool, s: seq<T>) {
    forall i, j :: 0 <= i < j < |s| ==> less(s[i], s[j])
  }

  ghost predicate SameMembers<T>(a: seq<T>, b: seq<T>) {
    (forall x :: x in a ==> x in b) && (forall x :: x in b ==> x in a)
  }

  /** Any two different positions compare. */
  ghost predicate Comparable<T>(less: (T, T) -> bool, s: seq<T>) {
    forall i, j :: 0 <= i < j < |s| ==> less(s[i], s[j]) || less(s[j], s[i])
  }

  /** A strictly sorted sequence is determined by its members. */
  lemma {:induction false} SortedIsUnique<T(!new)>(less: (T, T) -> bool, a: seq<T>, b: seq<T>)
    requires Asymmetric(less) && Sorted(less, a) && Sorted(less, b) && SameMembers(a, b)
    ensures a == b
    decreases |a|
  {
    assert (a != [] ==> a[0] in b) && (b != [] ==> b[0] in a);
    if a != [] && b != [] {
      assert a[0] == b[0] by {
        assert a[0] in b && b[0] in a;
      }
      assert a == [a[0]] + a[1..] && b == [b[0]] + b[1..];
      forall x ensures x in a[1..] <==> x in b[1..] {
        assert x in a <==> x in b;
        assert a[0] !in a[1..] && b[0] !in b[1..];
      }
      SortedIsUnique(less, a[1..], b[1..]);
    }
  }

  /** sort.Slice, as an insertion sort. */
  method Sort<T(==, !new)>(xs: seq<T>, less: (T, T) -> bool) returns (r: seq<T>)
    requires forall x, y, z :: x in xs && y in xs && z in xs && less(x, y) && less(y, z) ==> less(x, z)
    requires Comparable(less, xs)
    ensures Sorted(less, r) && SameMembers(r, xs)
  {
    r := [];
    for i := 0 to |xs|
      invariant Sorted(less, r) && SameMembers(r, xs[..i])
    {
      var x := xs[i];
      var k := 0;
      while k < |r| && less(r[k], x)
        invariant k <= |r| && forall j :: 0 <= j < k ==> less(r[j], x)
      {
        k := k + 1;
      }
      Inserted(less, xs, i, r, k);
      r := r[..k] + [x] + r[k..];
    }
    assert xs[..|xs|] == xs;
  }

  lemma Inserted<T(!new)>(less: (T, T) -> bool, xs: seq<T>, i: nat, r: seq<T>, k: nat)
    requires i < |xs| && k <= |r| && Sorted(less, r) && SameMembers(r, xs[..i]) && Comparable(less, xs)
    requires forall x, y, z :: x in xs && y in xs && z in xs && less(x, y) && less(y, z) ==> less(x, z)
    requires (forall j :: 0 <= j < k ==> less(r[j], xs[i])) && (k < |r| ==> !less(r[k], xs[i]))
    ensures Sorted(less, r[..k] + [xs[i]] + r[k..]) && SameMembers(r[..k] + [xs[i]] + r[k..], xs[..i + 1])
  {
    var x, next := xs[i], r[..k] + [xs[i]] + r[k..];
    forall j | 0 <= j < |r| ensures r[j] in xs && (less(r[j], x) || less(x, r[j])) {
      assert r[j] in xs[..i];
      var p :| 0 <= p < i && xs[..i][p] == r[j];
      assert xs[p] == r[j];
    }
    forall j | k <= j < |r| ensures less(x, r[j]) {
      if j > k { assert less(r[k], r[j]); }
    }
    forall y ensures y in next <==> y in xs[..i + 1] {
      assert xs[..i + 1] == xs[..i] + [x];
      assert y in r <==> y in xs[..i];
      assert r == r[..k] + r[k..];
    }
  }

  // ---- What a snapshot is ----

  predicate EarlierMessage(a: MessageState, b: MessageState) {
    a.seqNo < b.seqNo
  }

  predicate EarlierQueue(a: SnapshotQueue, b: SnapshotQueue) {
    N.Less(a.name, b.name)
  }

  ghost predicate IsSnapshotQueue(q: QueueState, sq: SnapshotQueue) {
    && sq.name == q.name && sq.subs == q.subs
    && Sorted(EarlierMessage, sq.messages)
    && forall m :: m in sq.messages <==> m in q.messages.Values
  }

  ghost predicate IsSnapshot(s: Store, snap: Snapshot) {
    && snap.nextSeq == s.nextSeq
    && Sorted(EarlierQueue, snap.queues)
    && (forall sq :: sq in snap.queues ==> sq.name in s.queues && IsSnapshotQueue(s.queues[sq.name], sq))
    && (forall q :: q in s.queues ==> exists sq :: sq in snap.queues && sq.name == q)
  }

  lemma {:induction false} LessIsAsymmetric(a: string, b: string)
    requires N.Less(a, b)
    ensures !N.Less(b, a)
  {
    if a != "" && a[0] == b[0] { LessIsAsymmetric(a[1..], b[1..]); }
  }

  lemma {:induction false} LessIsTotal(a: string, b: string)
    ensures a == b || N.Less(a, b) || N.Less(b, a)
  {
    if a != "" && b != "" && a[0] == b[0] {
      LessIsTotal(a[1..], b[1..]);
      assert a == [a[0]] + a[1..] && b == [b[0]] + b[1..];
    }
  }

  lemma {:induction false} LessIsTransitive(a: string, b: string, c: string)
    requires N.Less(a, b) && N.Less(b, c)
    ensures N.Less(a, c)
  {
    if a != "" && a[0] == b[0] && b[0] == c[0] { LessIsTransitive(a[1..], b[1..], c[1..]); }
  }

  /** A queue has one snapshot. */
  lemma QueueSnapshotIsCanonical(q: QueueState, a: SnapshotQueue, b: SnapshotQueue)
    requires IsSnapshotQueue(q, a) && IsSnapshotQueue(q, b)
    ensures a == b
  {
    SortedIsUnique(EarlierMessage, a.messages, b.messages);
  }

  /** A store has one snapshot, in whatever order its maps are walked. */
  lemma SnapshotIsCanonical(s: Store, a: Snapshot, b: Snapshot)
    requires IsSnapshot(s, a) && IsSnapshot(s, b)
    ensures a == b
  {
    forall x, y: SnapshotQueue | EarlierQueue(x, y) ensures !EarlierQueue(y, x) {
      LessIsAsymmetric(x.name, y.name);
    }
    SnapshotMembers(s, a, b);
    SnapshotMembers(s, b, a);
    SortedIsUnique(EarlierQueue, a.queues, b.queues);
  }

  lemma SnapshotMembers(s: Store, a: Snapshot, b: Snapshot)
    requires IsSnapshot(s, a) && IsSnapshot(s, b)
    ensures forall sq :: sq in a.queues ==> sq in b.queues
  {
    forall sq | sq in a.queues ensures sq in b.queues {
      var other :| other in b.queues && other.name == sq.name;
      QueueSnapshotIsCanonical(s.queues[sq.name], sq, other);
    }
  }

  // ---- Restoring ----

  function RestoreMessages(ms: seq<MessageState>): map<string, MessageState> {
    if ms == [] then map[] else RestoreMessages(ms[..|ms| - 1])[ms[|ms| - 1].msgID := ms[|ms| - 1]]
  }

  function RestoreQueue(sq: SnapshotQueue): QueueState {
    QueueState(sq.name, sq.subs, RestoreMessages(sq.messages))
  }

  function RestoreQueues(sqs: seq<SnapshotQueue>): map<string, QueueState> {
    if sqs == [] then map[] else RestoreQueues(sqs[..|sqs| - 1])[sqs[|sqs| - 1].name := RestoreQueue(sqs[|sqs| - 1])]
  }

  function RestoreOf(snap: Snapshot): Store {
    Store(RestoreQueues(snap.queues), snap.nextSeq)
  }

  lemma {:induction false} RestoredMessages(ms: seq<MessageState>, id: string)
    requires forall i, j :: 0 <= i < j < |ms| ==> ms[i].msgID != ms[j].msgID
    ensures id in RestoreMessages(ms) <==> exists m :: m in ms && m.msgID == id
    ensures id in RestoreMessages(ms) ==> RestoreMessages(ms)[id] in ms && RestoreMessages(ms)[id].msgID == id
    ensures forall m :: m in ms && m.msgID == id ==> id in RestoreMessages(ms) && RestoreMessages(ms)[id] == m
    decreases |ms|
  {
    if ms != [] {
      var n := |ms| - 1;
      RestoredMessages(ms[..n], id);
      assert ms == ms[..n] + [ms[n]];
    }
  }

  lemma {:induction false} RestoredQueues(sqs: seq<SnapshotQueue>, q: string)
    requires forall i, j :: 0 <= i < j < |sqs| ==> sqs[i].name != sqs[j].name
    ensures q in RestoreQueues(sqs) <==> exists sq :: sq in sqs && sq.name == q
    ensures forall sq :: sq in sqs && sq.name == q ==>
            q in RestoreQueues(sqs) && RestoreQueues(sqs)[q] == RestoreQueue(sq)
    decreases |sqs|
  {
    if sqs != [] {
      var n := |sqs| - 1;
      RestoredQueues(sqs[..n], q);
      assert sqs == sqs[..n] + [sqs[n]];
    }
  }

  lemma QueueRoundTrip(s: Store, q: string, sq: SnapshotQueue)
    requires Inv(s) && q in s.queues && IsSnapshotQueue(s.queues[q], sq)
    ensures RestoreQueue(sq) == s.queues[q]
  {
    var messages := s.queues[q].messages;
    forall m | m in sq.messages ensures m.msgID in messages && messages[m.msgID] == m {
      var id :| id in messages && messages[id] == m;
      assert Holds(s, q, id) && MessageOk(MessageAt(s, q, id), id, s.nextSeq);
    }
    forall i, j | 0 <= i < j < |sq.messages| ensures sq.messages[i].msgID != sq.messages[j].msgID {
      assert sq.messages[i] in sq.messages && sq.messages[j] in sq.messages;
      assert EarlierMessage(sq.messages[i], sq.messages[j]);
    }
    forall id: string ensures id in RestoreMessages(sq.messages) <==> id in messages
      ensures id in messages ==> id in RestoreMessages(sq.messages) && RestoreMessages(sq.messages)[id] == messages[id]
    {
      RestoredMessages(sq.messages, id);
      if id in messages {
        assert Holds(s, q, id) && MessageOk(MessageAt(s, q, id), id, s.nextSeq);
        assert messages[id] in messages.Values;
      }
    }
  }

  /** Restoring the snapshot of a store gives the store back. */
  lemma SnapshotRoundTrip(s: Store, snap: Snapshot)
    requires Inv(s) && IsSnapshot(s, snap)
    ensures RestoreOf(snap) == s
  {
    var sqs := snap.queues;
    forall i, j | 0 <= i < j < |sqs| ensures sqs[i].name != sqs[j].name {
      assert EarlierQueue(sqs[i], sqs[j]);
      N.NotLessSelf(sqs[i].name);
    }
    forall q: string ensures q in RestoreQueues(sqs) <==> q in s.queues
      ensures q in s.queues ==> q in RestoreQueues(sqs) && RestoreQueues(sqs)[q] == s.queues[q]
    {
      RestoredQueues(sqs, q);
      if q in s.queues {
        var sq :| sq in sqs && sq.name == q;
        QueueRoundTrip(s, q, sq);
      }
    }
  }

  lemma {:induction false} RunConcat(s: Store, a: seq<Command>, b: seq<Command>)
    ensures Run(s, a + b) == Run(Run(s, a), b)
    decreases |b|
  {
    if b == [] {
      assert a + b == a;
    } else {
      assert (a + b)[..|a + b| - 1] == a + b[..|b| - 1];
      RunConcat(s, a, b[..|b| - 1]);
    }
  }

  /** Snapshots commute with commands: a node that restores a snapshot taken after
      `past` and applies `future` is in the state, and gives every answer, of one
      that never did. */
  lemma SnapshotCommutes(past: seq<Command>, snap: Snapshot, future: seq<Command>, c: Command)
    requires IsSnapshot(Run(EMPTY, past), snap)
    ensures Run(RestoreOf(snap), future) == Run(EMPTY, past + future)
    ensures Apply(Run(RestoreOf(snap), future), c).response == Apply(Run(EMPTY, past + future), c).response
  {
    RunKeepsInv(past);
    SnapshotRoundTrip(Run(EMPTY, past), snap);
    RunConcat(EMPTY, past, future);
  }

  // ---- The store as an object ----

  class InMemoryStorage {
    var queues: map<string, QueueState>
    var nextSeq: nat

    ghost function Value(): Store
      reads this
    {
      Store(queues, nextSeq)
    }

    constructor ()
      ensures Value() == EMPTY
    {
      queues, nextSeq := map[], 0;
    }

    method CreateQueue(name: string) returns (r: Response)
      modifies this
      ensures Outcome(Value(), r) == Apply(old(Value()), Command.CreateQueue(name))
    {
      if name in queues {
        return QueueExists;
      }
      queues := queues[name := QueueState(name, map[], map[])];
      return NoError;
    }

    method DeleteQueue(name: string) returns (r: Response)
      modifies this
      ensures Outcome(Value(), r) == Apply(old(Value()), Command.DeleteQueue(name))
    {
      if name !in queues {
        return QueueNotFound;
      }
      queues := queues - {name};
      return NoError;
    }

    method PutSubPolicy(name: string, policy: SubPolicy) returns (r: Response)
      modifies this
      ensures Outcome(Value(), r) == Apply(old(Value()), Command.PutSubPolicy(name, policy))
    {
      if name !in queues {
        return QueueNotFound;
      }
      queues := queues[name := queues[name].(subs := queues[name].subs[policy.subName := policy])];
      return NoError;
    }

    method DeleteSubPolicy(name: string, sub: string) returns (r: Response)
      modifies this
      ensures Outcome(Value(), r) == Apply(old(Value()), Command.DeleteSubPolicy(name, sub))
    {
      if name !in queues {
        return QueueNotFound;
      }
      queues := queues[name := queues[name].(subs := queues[name].subs - {sub})];
      return NoError;
    }

    method Enqueue(name: string, msgID: string, payload: string, subList: map<string, SubPolicy>) returns (r: Response)
      modifies this
      ensures Outcome(Value(), r) == Apply(old(Value()), Command.Enqueue(name, msgID, payload, subList))
    {
      if name !in queues {
        return QueueNotFound;
      }
      if msgID in queues[name].messages {
        return Enqueued(queues[name].messages[msgID]);
      }
      var msg := MessageState(nextSeq, msgID, payload, subList, {});
      nextSeq := nextSeq + 1;
      if |subList| > 0 {
        queues := queues[name := queues[name].(messages := queues[name].messages[msgID := msg])];
      }
      return Enqueued(msg);
    }

    /** Ack: settle the named subscribers one by one, then drop the message if all have settled. */
    method Ack(name: string, msgID: string, subNames: seq<string>) returns (r: Response)
      modifies this
      ensures Outcome(Value(), r) == Apply(old(Value()), Command.Ack(name, msgID, subNames))
    {
      if name !in queues {
        return NoError;
      }
      var q := queues[name];
      if msgID !in q.messages {
        return NoError;
      }
      var msg := SettleAll(q.messages[msgID], subNames);
      var messages := q.messages[msgID := msg];
      if |msg.acked| >= |msg.subList| {
        messages := messages - {msgID};
        assert messages == q.messages - {msgID};
      }
      queues := queues[name := q.(messages := messages)];
      return NoError;
    }

    method QueueNames() returns (names: seq<string>)
      ensures Sorted(N.Less, names) && forall q :: q in names <==> q in queues
      ensures forall i, j :: 0 <= i < j < |names| ==> names[i] != names[j]
    {
      names := [];
      var todo := queues.Keys;
      while todo != {}
        invariant todo <= queues.Keys && forall q :: q in names <==> q in queues && q !in todo
        invariant forall i, j :: 0 <= i < j < |names| ==> names[i] != names[j]
        decreases todo
      {
        var q :| q in todo;
        names := names + [q];
        todo := todo - {q};
      }
      forall i, j | 0 <= i < j < |names| ensures N.Less(names[i], names[j]) || N.Less(names[j], names[i]) {
        LessIsTotal(names[i], names[j]);
      }
      forall x, y, z | N.Less(x, y) && N.Less(y, z) ensures N.Less(x, z) {
        LessIsTransitive(x, y, z);
      }
      names := Sort(names, N.Less);
      forall i, j | 0 <= i < j < |names| ensures names[i] != names[j] {
        LessIsAsymmetric(names[i], names[j]);
      }
    }

    /** PendingMessages: in order of sequence number, whatever the map's order. */
    method PendingMessages(name: string) returns (r: Option<seq<MessageState>>)
      requires Inv(Value())
      ensures r.None? <==> name !in queues
      ensures r.Some? ==>
                Sorted(EarlierMessage, r.value) && forall m :: m in r.value <==> m in queues[name].messages.Values
    {
      if name !in queues {
        return None;
      }
      var ms := InOrder(Value(), name, queues[name]);
      return Some(ms);
    }

    method TakeSnapshot() returns (snap: Snapshot)
      requires Inv(Value())
      ensures IsSnapshot(Value(), snap)
    {
      var sqs: seq<SnapshotQueue> := [];
      var todo := queues.Keys;
      while todo != {}
        invariant todo <= queues.Keys
        invariant forall sq :: sq in sqs ==>
          sq.name in queues && sq.name !in todo && IsSnapshotQueue(queues[sq.name], sq)
        invariant forall q :: q in queues && q !in todo ==> exists sq :: sq in sqs && sq.name == q
        invariant forall i, j :: 0 <= i < j < |sqs| ==> sqs[i].name != sqs[j].name
        decreases todo
      {
        var q :| q in todo;
        var ms := InOrder(Value(), q, queues[q]);
        var sq := SnapshotQueue(queues[q].name, queues[q].subs, ms);
        assert sq.name == q && IsSnapshotQueue(queues[q], sq);
        ghost var before := sqs;
        sqs := sqs + [sq];
        todo := todo - {q};
        assert sq in sqs && forall x :: x in before ==> x in sqs;
      }
      QueuesCompare(sqs);
      var sorted := Sort(sqs, EarlierQueue);
      snap := Snapshot(nextSeq, sorted);
    }

    method Restore(snap: Snapshot)
      modifies this
      ensures Value() == RestoreOf(snap)
    {
      var restored: map<string, QueueState> := map[];
      for i := 0 to |snap.queues|
        invariant restored == RestoreQueues(snap.queues[..i])
      {
        var sq := snap.queues[i];
        var messages: map<string, MessageState> := map[];
        for j := 0 to |sq.messages|
          invariant messages == RestoreMessages(sq.messages[..j])
        {
          messages := messages[sq.messages[j].msgID := sq.messages[j]];
          assert sq.messages[..j + 1][..j] == sq.messages[..j];
        }
        assert sq.messages[..|sq.messages|] == sq.messages;
        restored := restored[sq.name := QueueState(sq.name, sq.subs, messages)];
        assert snap.queues[..i + 1][..i] == snap.queues[..i];
      }
      assert snap.queues[..|snap.queues|] == snap.queues;
      queues, nextSeq := restored, snap.nextSeq;
    }
  }

  /** The state machine's Apply: dispatch to the store; what cannot be decoded changes nothing. */
  method ApplyEntry(store: InMemoryStorage, c: Command) returns (r: Response)
    modifies store
    ensures Outcome(store.Value(), r) == Apply(old(store.Value()), c)
  {
    match c
    case CreateQueue(q) => r := store.CreateQueue(q);
    case DeleteQueue(q) => r := store.DeleteQueue(q);
    case PutSubPolicy(q, p) => r := store.PutSubPolicy(q, p);
    case DeleteSubPolicy(q, sub) => r := store.DeleteSubPolicy(q, sub);
    case Ack(q, id, names) => r := store.Ack(q, id, names);
    case Enqueue(q, id, payload, subList) => r := store.Enqueue(q, id, payload, subList);
    case Undecodable => r := Rejected;
  }

  method SettleAll(m: MessageState, subNames: seq<string>) returns (r: MessageState)
    ensures r == Settled(m, subNames)
  {
    r := m;
    for i := 0 to |subNames|
      invariant r == Settled(m, subNames[..i])
    {
      assert Named(subNames[..i + 1]) == Named(subNames[..i]) + {subNames[i]};
      if subNames[i] in r.subList {
        r := r.(acked := r.acked + {subNames[i]});
      }
    }
    assert subNames[..|subNames|] == subNames;
  }

  /** messagesInOrder: collect in the map's order, then sort by sequence number. */
  method InOrder(ghost s: Store, q: string, qs: QueueState) returns (r: seq<MessageState>)
    requires Inv(s) && q in s.queues && qs == s.queues[q]
    ensures Sorted(EarlierMessage, r) && forall m :: m in r <==> m in qs.messages.Values
  {
    var ms: seq<MessageState> := [];
    var todo := qs.messages.Keys;
    while todo != {}
      invariant todo <= qs.messages.Keys
      invariant forall m :: m in ms <==> exists id :: id in qs.messages && id !in todo && qs.messages[id] == m
      invariant forall i :: 0 <= i < |ms| ==>
        ms[i].msgID in qs.messages && ms[i].msgID !in todo && qs.messages[ms[i].msgID] == ms[i]
      invariant forall i, j :: 0 <= i < j < |ms| ==> ms[i].msgID != ms[j].msgID
      decreases todo
    {
      var id :| id in todo;
      assert Holds(s, q, id) && MessageOk(MessageAt(s, q, id), id, s.nextSeq);
      ghost var before := todo;
      ms := ms + [qs.messages[id]];
      todo := todo - {id};
      assert forall x :: x in qs.messages && x !in todo <==> x in qs.messages && (x !in before || x == id);
    }
    forall i, j | 0 <= i < j < |ms| ensures ms[i].seqNo != ms[j].seqNo {
      assert Holds(s, q, ms[i].msgID) && Holds(s, q, ms[j].msgID);
    }
    r := Sort(ms, EarlierMessage);
  }

  lemma QueuesCompare(sqs: seq<SnapshotQueue>)
    requires forall i, j :: 0 <= i < j < |sqs| ==> sqs[i].name != sqs[j].name
    ensures Comparable(EarlierQueue, sqs)
    ensures forall x, y, z :: x in sqs && y in sqs && z in sqs && EarlierQueue(x, y) && EarlierQueue(y, z) ==>
            EarlierQueue(x, z)
  {
    forall i, j | 0 <= i < j < |sqs| ensures EarlierQueue(sqs[i], sqs[j]) || EarlierQueue(sqs[j], sqs[i]) {
      LessIsTotal(sqs[i].name, sqs[j].name);
    }
    forall x, y, z: SnapshotQueue | EarlierQueue(x, y) && EarlierQueue(y, z) ensures EarlierQueue(x, z) {
      LessIsTransitive(x.name, y.name, z.name);
    }
  }
}
