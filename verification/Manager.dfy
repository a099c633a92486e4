/**
  The manager of one leadership term: its queues of copies, the dedupe set, and
  what promotion rebuilds from storage. The ring buffers are represented by
  their contents.
 */
module Managers {
  import opened Storage
  import opened History
  import opened Snapshots
  import opened Worker

  /** The lines of copies waiting, by queue, and the ids already scheduled. */
  datatype Plan = Plan(lines: map<string, seq<Copy>>, ids: set<string>)

  const NOTHING_PLANNED := Plan(map[], {})

  function Line(p: Plan, q: string): seq<Copy> {
    if q in p.lines then p.lines[q] else []
  }

  /** Position i of line q holds a copy of message `id`. */
  ghost predicate IsAt(p: Plan, q: string, i: int, id: string) {
    q in p.lines && 0 <= i < |p.lines[q]| && p.lines[q][i].id == id
  }

  /** Every scheduled id has exactly one copy, in the line of its queue, and it still owes someone. */
  ghost predicate OneEach(p: Plan) {
    && (forall q, i :: q in p.lines && 0 <= i < |p.lines[q]| ==>
          var c := p.lines[q][i];
          c.queue == q && c.id in p.ids && Pending(c) != {})
    && (forall id :: id in p.ids ==> exists q, i :: IsAt(p, q, i, id))
    && (forall q, i, q', j, id :: IsAt(p, q, i, id) && IsAt(p, q', j, id) ==> q == q' && i == j)
  }

  // ---- Scheduling ----

  function Scheduled(p: Plan, c: Copy): Plan {
    if c.id in p.ids || Pending(c) == {} then p
    else Plan(p.lines[c.queue := Line(p, c.queue) + [c]], p.ids + {c.id})
  }

  function ScheduledAll(p: Plan, cs: seq<Copy>): Plan {
    if cs == [] then p else Scheduled(ScheduledAll(p, cs[..|cs| - 1]), cs[|cs| - 1])
  }

  lemma ScheduledKeeps(p: Plan, c: Copy)
    requires OneEach(p)
    ensures OneEach(Scheduled(p, c))
  {
    var p' := Scheduled(p, c);
    if p' != p {
      var n := |Line(p, c.queue)|;
      forall q, i, id ensures IsAt(p', q, i, id) <==> IsAt(p, q, i, id) || (q == c.queue && i == n && id == c.id) {}
      assert forall q, i :: !IsAt(p, q, i, c.id);
      forall id | id in p'.ids ensures exists q, i :: IsAt(p', q, i, id) {
        if id == c.id {
          assert IsAt(p', c.queue, n, id);
        } else {
          var q, i :| IsAt(p, q, i, id);
          assert IsAt(p', q, i, id);
        }
      }
    }
  }

  lemma {:induction false} ScheduledAllConcat(p: Plan, a: seq<Copy>, b: seq<Copy>)
    ensures ScheduledAll(p, a + b) == ScheduledAll(ScheduledAll(p, a), b)
    decreases |b|
  {
    if b == [] {
      assert a + b == a;
    } else {
      assert (a + b)[..|a + b| - 1] == a + b[..|b| - 1];
      ScheduledAllConcat(p, a, b[..|b| - 1]);
    }
  }

  /** The copies for queue q, in their order. */
  function OfQueue(cs: seq<Copy>, q: string): seq<Copy> {
    if cs == [] then []
    else OfQueue(cs[..|cs| - 1], q) + if cs[|cs| - 1].queue == q then [cs[|cs| - 1]] else []
  }

  lemma {:induction false} OfQueueConcat(a: seq<Copy>, b: seq<Copy>, q: string)
    ensures OfQueue(a + b, q) == OfQueue(a, q) + OfQueue(b, q)
    decreases |b|
  {
    if b == [] {
      assert a + b == a;
    } else {
      assert (a + b)[..|a + b| - 1] == a + b[..|b| - 1];
      OfQueueConcat(a, b[..|b| - 1], q);
    }
  }

  lemma {:induction false} OfOneQueue(cs: seq<Copy>, name: string, q: string)
    requires forall i :: 0 <= i < |cs| ==> cs[i].queue == name
    ensures OfQueue(cs, q) == if q == name then cs else []
    decreases |cs|
  {
    if cs != [] { OfOneQueue(cs[..|cs| - 1], name, q); }
  }

  /** Whatever is presented is scheduled: every id is in the set, however often it occurs. */
  lemma {:induction false} PresentedIsScheduled(p: Plan, cs: seq<Copy>, id: string)
    requires forall i :: 0 <= i < |cs| ==> Pending(cs[i]) != {}
    ensures id in ScheduledAll(p, cs).ids <==> id in p.ids || exists i :: 0 <= i < |cs| && cs[i].id == id
    decreases |cs|
  {
    if cs != [] {
      var n := |cs| - 1;
      PresentedIsScheduled(p, cs[..n], id);
      if exists i :: 0 <= i < n && cs[..n][i].id == id {
        var i :| 0 <= i < n && cs[..n][i].id == id;
        assert cs[i].id == id;
      }
    }
  }

  ghost predicate DistinctIds(cs: seq<Copy>) {
    forall i, j :: 0 <= i < j < |cs| ==> cs[i].id != cs[j].id
  }

  /** With distinct ids nothing is dropped: each line is what was presented for its queue. */
  lemma {:induction false} LinesArePresented(cs: seq<Copy>, q: string)
    requires DistinctIds(cs) && forall i :: 0 <= i < |cs| ==> Pending(cs[i]) != {}
    ensures Line(ScheduledAll(NOTHING_PLANNED, cs), q) == OfQueue(cs, q)
    decreases |cs|
  {
    if cs != [] {
      var n := |cs| - 1;
      LinesArePresented(cs[..n], q);
      PresentedIsScheduled(NOTHING_PLANNED, cs[..n], cs[n].id);
    }
  }

  // ---- What storage presents ----

  /** The line holds a fresh copy of every message of queue q, in log order. */
  ghost predicate Lists(s: Store, q: string, line: seq<Copy>) {
    && (forall i :: 0 <= i < |line| ==> line[i].queue == q && Shows(s, line[i]))
    && (forall id :: Holds(s, q, id) ==> exists i :: 0 <= i < |line| && line[i].id == id)
    && (forall i, j :: 0 <= i < j < |line| ==> MessageAt(s, q, line[i].id).seqNo < MessageAt(s, q, line[j].id).seqNo)
  }

  /** No id is on two queues. */
  ghost predicate UniqueIds(s: Store) {
    forall q, q', id :: Holds(s, q, id) && Holds(s, q', id) ==> q == q'
  }

  /** The copy shows a message as storage holds it: the same payload and snapshot, pending for exactly those to whom
      storage owes it, and no failure counted yet. */
  ghost predicate Shows(s: Store, c: Copy) {
    && Holds(s, c.queue, c.id) && c.payload == MessageAt(s, c.queue, c.id).payload
    && c.subList == MessageAt(s, c.queue, c.id).subList
    && (forall sub :: sub in Pending(c) <==> Owed(s, c.queue, c.id, sub))
    && forall sub :: Tries(c, sub) == 0
  }

  /** A sweep presents every message of every queue. */
  ghost predicate Presents(s: Store, cs: seq<Copy>) {
    (forall q :: Lists(s, q, OfQueue(cs, q))) && (forall i :: 0 <= i < |cs| ==> Shows(s, cs[i]))
  }

  /** The line of one queue, from its messages sorted by sequence number. */
  lemma SortedCopiesList(s: Store, q: string, ms: seq<MessageState>, line: seq<Copy>)
    requires Inv(s) && q in s.queues && Sorted(EarlierMessage, ms)
    requires forall m :: m in ms <==> m in s.queues[q].messages.Values
    requires |line| == |ms| && forall i :: 0 <= i < |ms| ==> line[i] == CopyOf(q, ms[i])
    ensures Lists(s, q, line)
  {
    forall i | 0 <= i < |line|
      ensures Holds(s, q, line[i].id) && MessageAt(s, q, line[i].id) == ms[i] && Shows(s, line[i])
    {
      assert ms[i] in ms;
      var id :| id in s.queues[q].messages && s.queues[q].messages[id] == ms[i];
      assert Holds(s, q, id) && MessageOk(MessageAt(s, q, id), id, s.nextSeq);
    }
    forall id | Holds(s, q, id) ensures exists i :: 0 <= i < |line| && line[i].id == id {
      assert MessageOk(MessageAt(s, q, id), id, s.nextSeq) && MessageAt(s, q, id) in s.queues[q].messages.Values;
      var i :| 0 <= i < |ms| && ms[i] == MessageAt(s, q, id);
      assert line[i].id == id;
    }
  }

  /** A presented copy has its place in its queue's part. */
  lemma {:induction false} PlaceInQueue(cs: seq<Copy>, i: nat)
    requires i < |cs|
    ensures
      var q := cs[i].queue;
      var k := |OfQueue(cs[..i], q)|;
      k < |OfQueue(cs, q)| && OfQueue(cs, q)[k] == cs[i] && |OfQueue(cs[..i + 1], q)| == k + 1
  {
    var q := cs[i].queue;
    assert cs == cs[..i + 1] + cs[i + 1..] && cs[..i + 1][..i] == cs[..i];
    OfQueueConcat(cs[..i + 1], cs[i + 1..], q);
  }

  lemma {:induction false} OfQueueGrows(cs: seq<Copy>, i: nat, j: nat, q: string)
    requires i <= j <= |cs|
    ensures |OfQueue(cs[..i], q)| <= |OfQueue(cs[..j], q)|
  {
    assert cs[..j] == cs[..i] + cs[i..j];
    OfQueueConcat(cs[..i], cs[i..j], q);
  }

  lemma PresentedIdsDistinct(s: Store, cs: seq<Copy>)
    requires Presents(s, cs) && UniqueIds(s)
    ensures DistinctIds(cs)
  {
    forall i, j | 0 <= i < j < |cs| ensures cs[i].id != cs[j].id {
      var q := cs[i].queue;
      if cs[j].queue == q {
        PlaceInQueue(cs, i);
        PlaceInQueue(cs, j);
        OfQueueGrows(cs, i + 1, j, q);
        assert Lists(s, q, OfQueue(cs, q));
      } else {
        assert Holds(s, q, cs[i].id) && Holds(s, cs[j].queue, cs[j].id);
      }
    }
  }

  lemma {:induction false} ScheduledAllKeeps(p: Plan, cs: seq<Copy>)
    requires OneEach(p)
    ensures OneEach(ScheduledAll(p, cs))
    decreases |cs|
  {
    if cs != [] {
      var n := |cs| - 1;
      ScheduledAllKeeps(p, cs[..n]);
      ScheduledKeeps(ScheduledAll(p, cs[..n]), cs[n]);
    }
  }

  lemma PresentedOwe(s: Store, cs: seq<Copy>, i: nat)
    requires Inv(s) && Presents(s, cs) && i < |cs|
    ensures Pending(cs[i]) != {}
  {
    var m := MessageAt(s, cs[i].queue, cs[i].id);
    assert MessageOk(m, cs[i].id, s.nextSeq);
    var sub :| sub in m.subList && sub !in m.acked;
    assert Owed(s, cs[i].queue, cs[i].id, sub) && sub in Pending(cs[i]);
  }

  /** Every line lists its queue. */
  ghost predicate Rebuilt(s: Store, p: Plan) {
    forall q :: Lists(s, q, Line(p, q))
  }

  /** Promotion rebuilds every line from storage, in log order, exactly when no id is on two queues;
      the dedupe set holds all pending ids in any case. */
  lemma RebuiltIffUnique(s: Store, cs: seq<Copy>)
    requires Inv(s) && Presents(s, cs)
    ensures Rebuilt(s, ScheduledAll(NOTHING_PLANNED, cs)) <==> UniqueIds(s)
    ensures forall id :: id in ScheduledAll(NOTHING_PLANNED, cs).ids <==> exists q :: Holds(s, q, id)
  {
    hide Inv;
    var p := ScheduledAll(NOTHING_PLANNED, cs);
    forall i | 0 <= i < |cs| ensures Pending(cs[i]) != {} {
      PresentedOwe(s, cs, i);
    }
    if UniqueIds(s) {
      PresentedIdsDistinct(s, cs);
      forall q ensures Lists(s, q, Line(p, q)) {
        LinesArePresented(cs, q);
      }
    }
    if Rebuilt(s, p) {
      ListedOnce(s, cs);
    }
    forall id ensures id in p.ids <==> exists q :: Holds(s, q, id) {
      AllIdsScheduled(s, cs, id);
    }
  }

  lemma ListedOnce(s: Store, cs: seq<Copy>)
    requires Rebuilt(s, ScheduledAll(NOTHING_PLANNED, cs))
    ensures UniqueIds(s)
  {
    var p := ScheduledAll(NOTHING_PLANNED, cs);
    ScheduledAllKeeps(NOTHING_PLANNED, cs);
    forall q, q', id | Holds(s, q, id) && Holds(s, q', id) ensures q == q' {
      assert Lists(s, q, Line(p, q)) && Lists(s, q', Line(p, q'));
      var i :| 0 <= i < |Line(p, q)| && Line(p, q)[i].id == id;
      var j :| 0 <= j < |Line(p, q')| && Line(p, q')[j].id == id;
      assert IsAt(p, q, i, id) && IsAt(p, q', j, id);
    }
  }

  lemma AllIdsScheduled(s: Store, cs: seq<Copy>, id: string)
    requires Presents(s, cs) && forall i :: 0 <= i < |cs| ==> Pending(cs[i]) != {}
    ensures id in ScheduledAll(NOTHING_PLANNED, cs).ids <==> exists q :: Holds(s, q, id)
  {
    PresentedIsScheduled(NOTHING_PLANNED, cs, id);
    if exists q :: Holds(s, q, id) {
      var q :| Holds(s, q, id);
      var line := OfQueue(cs, q);
      assert Lists(s, q, line);
      var k :| 0 <= k < |line| && line[k].id == id;
      var i := OfQueueFrom(cs, q, k);
    }
  }

  lemma {:induction false} OfQueueFrom(cs: seq<Copy>, q: string, k: nat) returns (i: nat)
    requires k < |OfQueue(cs, q)|
    ensures i < |cs| && cs[i] == OfQueue(cs, q)[k]
    decreases |cs|
  {
    var n := |cs| - 1;
    if k < |OfQueue(cs[..n], q)| {
      i := OfQueueFrom(cs[..n], q, k);
    } else {
      i := n;
    }
  }

  /** What a sweep has presented of queue q when it has been through `names`. */
  ghost predicate SweptOf(s: Store, names: seq<string>, cs: seq<Copy>, q: string) {
    if q in names then Lists(s, q, OfQueue(cs, q)) else OfQueue(cs, q) == []
  }

  ghost predicate Swept(s: Store, names: seq<string>, cs: seq<Copy>) {
    (forall q :: SweptOf(s, names, cs, q)) && (forall i :: 0 <= i < |cs| ==> Shows(s, cs[i]))
  }

  lemma OfQueueAppended(cs: seq<Copy>, line: seq<Copy>, name: string, q: string)
    requires forall i :: 0 <= i < |line| ==> line[i].queue == name
    ensures OfQueue(cs + line, q) == if q == name then OfQueue(cs, q) + line else OfQueue(cs, q)
  {
    hide OfQueue;
    OfQueueConcat(cs, line, q);
    OfOneQueue(line, name, q);
    assert OfQueue(cs, q) + [] == OfQueue(cs, q);
  }

  lemma SweptOfNext(s: Store, names: seq<string>, k: nat, cs: seq<Copy>, line: seq<Copy>, q: string)
    requires k < |names| && names[k] !in names[..k] && SweptOf(s, names[..k], cs, q) && Lists(s, names[k], line)
    ensures SweptOf(s, names[..k + 1], cs + line, q)
  {
    ListsOwn(s, names[k], line);
    hide Lists, OfQueue;
    OfQueueAppended(cs, line, names[k], q);
    InFront(names, k, q);
    if q == names[k] {
      assert OfQueue(cs, q) == [] && [] + line == line;
    }
  }

  lemma InFront(names: seq<string>, k: nat, q: string)
    requires k < |names|
    ensures q in names[..k + 1] <==> q in names[..k] || q == names[k]
  {
    assert names[..k + 1] == names[..k] + [names[k]];
  }

  lemma ListsOwn(s: Store, q: string, line: seq<Copy>)
    requires Lists(s, q, line)
    ensures forall i :: 0 <= i < |line| ==> line[i].queue == q
  {
  }

  lemma SweptNext(s: Store, names: seq<string>, k: nat, cs: seq<Copy>, line: seq<Copy>)
    requires k < |names| && names[k] !in names[..k] && Swept(s, names[..k], cs) && Lists(s, names[k], line)
    ensures Swept(s, names[..k + 1], cs + line)
  {
    assert forall i :: 0 <= i < |line| ==> Shows(s, line[i]);
    hide Lists, Shows, SweptOf;
    var done, all := names[..k + 1], cs + line;
    forall q ensures SweptOf(s, done, all, q) {
      SweptOfNext(s, names, k, cs, line, q);
    }
  }

  lemma SweptAll(s: Store, names: seq<string>, cs: seq<Copy>)
    requires Swept(s, names, cs) && forall q :: q in names <==> q in s.queues
    ensures Presents(s, cs)
  {
    forall q ensures Lists(s, q, OfQueue(cs, q)) {
      assert SweptOf(s, names, cs, q);
    }
  }

  /** Who a rebuilt line sends to: with fresh ids, exactly those to whom the log that the store has applied still
      owes the message. */
  lemma LineOwesWhatLogOwes(log: seq<Command>, q: string, line: seq<Copy>, i: nat, sub: string)
    requires FreshIds(log) && Lists(Run(EMPTY, log), q, line) && i < |line|
    ensures sub in Pending(line[i]) <==> Open(log, q, line[i].id, sub)
  {
    assert Shows(Run(EMPTY, log), line[i]);
    OwedMatchesLog(log, q, line[i].id, sub);
  }

  // ---- Working a line off ----

  /** The line after its first copy was processed without a demotion. */
  function Worked(p: Plan, q: string, ok: set<string>, committed: bool): Plan
    requires q in p.lines && p.lines[q] != []
  {
    var c := p.lines[q][0];
    if Finished(c, ok) != {} && !committed then Requeued(p, q, AfterSends(c, ok))
    else if Done(Pass(c, ok)) then Forgotten(p, q)
    else Requeued(p, q, Pass(c, ok))
  }

  /** The first copy of line q goes to its end, as c'. */
  function Requeued(p: Plan, q: string, c': Copy): Plan
    requires q in p.lines && p.lines[q] != []
  {
    p.(lines := p.lines[q := p.lines[q][1..] + [c']])
  }

  /** The first copy of line q is gone. */
  function Forgotten(p: Plan, q: string): Plan
    requires q in p.lines && p.lines[q] != []
  {
    Plan(p.lines[q := p.lines[q][1..]], p.ids - {p.lines[q][0].id})
  }

  /** Where position i of line r was before the first of line q's n copies was taken. */
  function Before(q: string, n: nat, r: string, i: int): int {
    if r != q then i else if i == n - 1 then 0 else i + 1
  }

  lemma RequeuedKeeps(p: Plan, q: string, c': Copy)
    requires OneEach(p) && q in p.lines && p.lines[q] != []
    requires c'.id == p.lines[q][0].id && c'.queue == q && Pending(c') != {}
    ensures OneEach(Requeued(p, q, c'))
  {
    hide Pending;
    var p', n := Requeued(p, q, c'), |p.lines[q]|;
    forall r, i, id ensures IsAt(p', r, i, id) ==> IsAt(p, r, Before(q, n, r, i), id) {}
    forall id | id in p'.ids ensures exists r, i :: IsAt(p', r, i, id) {
      var r, i :| IsAt(p, r, i, id);
      assert IsAt(p', r, if r != q then i else if i == 0 then n - 1 else i - 1, id);
    }
  }

  lemma ForgottenKeeps(p: Plan, q: string)
    requires OneEach(p) && q in p.lines && p.lines[q] != []
    ensures OneEach(Forgotten(p, q))
  {
    hide Pending;
    var p', c := Forgotten(p, q), p.lines[q][0];
    assert IsAt(p, q, 0, c.id);
    forall r, i, id ensures IsAt(p', r, i, id) ==> IsAt(p, r, if r == q then i + 1 else i, id) {}
    forall r, i | r in p'.lines && 0 <= i < |p'.lines[r]|
      ensures var d := p'.lines[r][i]; d.queue == r && d.id in p'.ids && Pending(d) != {}
    {
      assert IsAt(p', r, i, p'.lines[r][i].id);
    }
    forall id | id in p'.ids ensures exists r, i :: IsAt(p', r, i, id) {
      var r, i :| IsAt(p, r, i, id);
      assert IsAt(p', r, if r != q then i else i - 1, id);
    }
  }

  lemma WorkedKeeps(p: Plan, q: string, ok: set<string>, committed: bool)
    requires OneEach(p) && q in p.lines && p.lines[q] != []
    ensures OneEach(Worked(p, q, ok, committed))
  {
    FirstOfLine(p, q);
    hide OneEach;
    var c := p.lines[q][0];
    if Finished(c, ok) != {} && !committed {
      RequeuedKeeps(p, q, AfterSends(c, ok));
    } else if Done(Pass(c, ok)) {
      ForgottenKeeps(p, q);
    } else {
      NotDoneMeansPending(Pass(c, ok));
      RequeuedKeeps(p, q, Pass(c, ok));
    }
  }

  lemma FirstOfLine(p: Plan, q: string)
    requires OneEach(p) && q in p.lines && p.lines[q] != []
    ensures
      var c := p.lines[q][0];
      c.queue == q && Pending(c) != {}
  {
  }

  /** A turn settles this subscriber: the send succeeded or was the last one allowed, and the ack committed. */
  ghost predicate TurnSettles(c: Copy, ok: set<string>, committed: bool, sub: string)
    requires sub in c.subList
  {
    committed && (sub in ok || Tries(c, sub) + 1 >= c.subList[sub].numberOfRetries)
  }

  /** What a turn leaves of the copy it took, one subscriber at a time: whoever was pending and was not settled. If
      there is such a one the copy stands last in line, with one more failure counted for each send that failed, and
      its id stays in the set; if not, both are gone. Everything else in the plan stays as it was. */
  lemma TurnLeaves(p: Plan, q: string, ok: set<string>, committed: bool)
    requires OneEach(p) && Line(p, q) != [] && Line(p, q)[0].acked <= Line(p, q)[0].subList.Keys
    ensures
      var c, p', rest := Line(p, q)[0], Worked(p, q, ok, committed), Line(p, q)[1..];
      && (forall r :: r != q ==> Line(p', r) == Line(p, r))
      && if exists sub :: sub in Pending(c) && !TurnSettles(c, ok, committed, sub)
         then
           && |Line(p', q)| == |rest| + 1 && Line(p', q)[..|rest|] == rest && p'.ids == p.ids
           && Left(c, ok, committed, Line(p', q)[|rest|])
         else Line(p', q) == rest && p'.ids == p.ids - {c.id}
  {
    var c := Line(p, q)[0];
    assert Pending(c) != {};
    TurnOutcome(c, ok, committed);
  }

  /** c' is what a turn leaves of c. */
  ghost predicate Left(c: Copy, ok: set<string>, committed: bool, c': Copy) {
    && c'.queue == c.queue && c'.id == c.id && c'.payload == c.payload && c'.subList == c.subList
    && (forall sub :: sub in Pending(c') <==> sub in Pending(c) && !TurnSettles(c, ok, committed, sub))
    && forall sub :: Tries(c', sub) == Tries(c, sub) + if sub in Pending(c) && sub !in ok then 1 else 0
  }

  lemma TurnOutcome(c: Copy, ok: set<string>, committed: bool)
    requires c.acked <= c.subList.Keys && Pending(c) != {}
    ensures
      var c' := if Finished(c, ok) != {} && !committed then AfterSends(c, ok) else Pass(c, ok);
      Left(c, ok, committed, c') && (Finished(c, ok) != {} && !committed ==> Pending(c') != {})
    ensures Done(Pass(c, ok)) <==> Pending(Pass(c, ok)) == {}
  {
    DoneMeansNonePending(Pass(c, ok));
    var c' := if Finished(c, ok) != {} && !committed then AfterSends(c, ok) else Pass(c, ok);
    forall sub ensures sub in Pending(c') <==> sub in Pending(c) && !TurnSettles(c, ok, committed, sub) {
      if sub in Pending(c) {
        assert sub in Finished(c, ok) <==> sub in ok || Tries(c, sub) + 1 >= c.subList[sub].numberOfRetries;
      }
    }
  }

  // ---- In what order copies get their turn ----

  /** What can happen to a line: its worker takes a turn, or a message is scheduled. */
  datatype Turn = WorkTurn(ok: set<string>, committed: bool) | ScheduleTurn(c: Copy)

  /** The plan after a turn of queue q's worker, or a scheduled copy. */
  function AfterTurn(p: Plan, q: string, t: Turn): Plan {
    match t
    case ScheduleTurn(c) => Scheduled(p, c)
    case WorkTurn(ok, committed) => if Line(p, q) == [] then p else Worked(p, q, ok, committed)
  }

  function AfterTurns(p: Plan, q: string, turns: seq<Turn>): Plan {
    if turns == [] then p else AfterTurn(AfterTurns(p, q, turns[..|turns| - 1]), q, turns[|turns| - 1])
  }

  /** How many of the turns were the worker's. */
  function WorkTurns(turns: seq<Turn>): nat {
    if turns == [] then 0 else WorkTurns(turns[..|turns| - 1]) + if turns[|turns| - 1].WorkTurn? then 1 else 0
  }

  lemma LineAfterTurn(p: Plan, q: string, t: Turn)
    requires Line(p, q) != []
    ensures t.ScheduleTurn? ==> Line(p, q) <= Line(AfterTurn(p, q, t), q)
    ensures t.WorkTurn? ==> Line(p, q)[1..] <= Line(AfterTurn(p, q, t), q)
  {
  }

  /** Turns go in line: whatever else is scheduled, and whether copies are requeued or forgotten, a copy that stands at
      place n has its turn after exactly n turns of the worker, before anything that was requeued or added behind it. */
  lemma {:induction false} TurnsGoInLine(p: Plan, q: string, turns: seq<Turn>)
    requires WorkTurns(turns) < |Line(p, q)|
    ensures Line(p, q)[WorkTurns(turns)..] <= Line(AfterTurns(p, q, turns), q)
    decreases |turns|
  {
    if turns != [] {
      var n := |turns| - 1;
      TurnsGoInLine(p, q, turns[..n]);
      var p', k := AfterTurns(p, q, turns[..n]), WorkTurns(turns[..n]);
      var line, line' := Line(p, q)[k..], Line(p', q);
      assert line' != [] && line'[0] == line[0];
      LineAfterTurn(p', q, turns[n]);
      hide AfterTurn, Line;
      if turns[n].WorkTurn? { assert line[1..] == Line(p, q)[k + 1..] && line[1..] <= line'[1..]; }
    }
  }

  class Manager {
    const store: InMemoryStorage
    var queues: map<string, seq<Copy>>
    var inFlightMsgs: set<string>
    var running: bool // the stop channel exists

    ghost function Value(): Plan
      reads this
    {
      Plan(queues, inFlightMsgs)
    }

    ghost predicate Valid()
      reads this
    {
      OneEach(Value()) && (!running ==> Value() == NOTHING_PLANNED)
    }

    constructor (store: InMemoryStorage)
      ensures Valid() && !running && this.store == store
    {
      this.store, queues, inFlightMsgs, running := store, map[], {}, false;
    }

    method QueueFor(name: string)
      modifies `queues
      ensures name in queues && queues == old(queues)[name := old(Line(Value(), name))]
    {
      if name !in queues {
        queues := queues[name := []];
      }
      assert queues == old(queues)[name := old(Line(Value(), name))];
    }

    /** Schedule, on a message as storage presents it. */
    method Schedule(queueName: string, m: MessageState)
      requires Valid()
      modifies this
      ensures Valid() && running == old(running)
      ensures
        var c := Copy(queueName, m.msgID, m.payload, m.subList, m.acked, map[]);
        Value() == if running then Scheduled(old(Value()), c) else old(Value())
    {
      hide OneEach;
      if !running {
        return;
      }
      if m.msgID in inFlightMsgs {
        return;
      }
      if m.subList.Keys - m.acked == {} {
        return;
      }
      ScheduledKeeps(Value(), CopyOf(queueName, m));
      inFlightMsgs := inFlightMsgs + {m.msgID};
      QueueFor(queueName);
      queues := queues[queueName := queues[queueName] + [CopyOf(queueName, m)]];
      assert Value() == Scheduled(old(Value()), CopyOf(queueName, m));
    }

    /** demote: everything is thrown away; again is no change. */
    method Demote()
      requires !running ==> Value() == NOTHING_PLANNED
      modifies this
      ensures Valid() && !running && Value() == NOTHING_PLANNED
    {
      if !running {
        return;
      }
      running, queues, inFlightMsgs := false, map[], {};
    }

    method Forget(msgID: string)
      modifies `inFlightMsgs
      ensures inFlightMsgs == old(inFlightMsgs) - {msgID}
    {
      inFlightMsgs := inFlightMsgs - {msgID};
    }

    /** sweep: what was presented is returned for the record. */
    method Sweep() returns (ghost presented: seq<Copy>)
      requires Valid() && Inv(store.Value())
      modifies this
      ensures Valid() && running == old(running) && Presents(store.Value(), presented)
      ensures Value() == if running then ScheduledAll(old(Value()), presented) else old(Value())
    {
      hide OneEach, Lists, Shows, Inv;
      presented := [];
      var names := store.QueueNames();
      for k := 0 to |names|
        invariant Valid() && running == old(running) && Swept(store.Value(), names[..k], presented)
        invariant Value() == if running then ScheduledAll(old(Value()), presented) else old(Value())
      {
        var msgs := store.PendingMessages(names[k]);
        if msgs.Some? {
          ghost var line := ScheduleLine(names[k], msgs.value);
          SortedCopiesList(store.Value(), names[k], msgs.value, line);
          SweptNext(store.Value(), names, k, presented, line);
          ScheduledAllConcat(old(Value()), presented, line);
          presented := presented + line;
        }
      }
      assert names[..|names|] == names;
      SweptAll(store.Value(), names, presented);
    }

    method ScheduleLine(name: string, msgs: seq<MessageState>) returns (ghost line: seq<Copy>)
      requires Valid()
      modifies this
      ensures Valid() && running == old(running)
      ensures |line| == |msgs| && forall i :: 0 <= i < |msgs| ==> line[i] == CopyOf(name, msgs[i])
      ensures Value() == if running then ScheduledAll(old(Value()), line) else old(Value())
    {
      hide OneEach;
      line := [];
      for i := 0 to |msgs|
        invariant Valid() && running == old(running)
        invariant |line| == i && forall j :: 0 <= j < i ==> line[j] == CopyOf(name, msgs[j])
        invariant Value() == if running then ScheduledAll(old(Value()), line) else old(Value())
      {
        Schedule(name, msgs[i]);
        assert (line + [CopyOf(name, msgs[i])])[..i] == line;
        line := line + [CopyOf(name, msgs[i])];
      }
    }

    /** promote: demote, wait for the barrier, then rebuild from storage. */
    method Promote(barrierPassed: bool) returns (ok: bool)
      requires Valid() && Inv(store.Value())
      modifies this
      ensures Valid() && ok == running == barrierPassed
      ensures running ==> forall id :: id in inFlightMsgs <==> exists q :: Holds(store.Value(), q, id)
      ensures running ==> (Rebuilt(store.Value(), Value()) <==> UniqueIds(store.Value()))
    {
      hide OneEach, Inv, Presents;
      Demote();
      if !barrierPassed {
        return false;
      }
      assert Value() == NOTHING_PLANNED && OneEach(Value());
      running := true;
      ghost var presented := Sweep();
      RebuiltIffUnique(store.Value(), presented);
      return true;
    }

    /** One turn of a queue's worker: pop a copy, process it, and requeue it or forget it. When the manager is
        demoted before the sends are back, the copy is dropped with everything else. */
    method Work(queueName: string, accepting: set<string>, demoted: bool, committed: bool) returns (idle: bool)
      requires Valid()
      modifies this
      ensures Valid() && idle == old(Line(Value(), queueName) == [])
      ensures running == (old(running) && (idle || !demoted))
      ensures
        Value() == if idle then old(Value()) else if demoted then NOTHING_PLANNED
                   else Worked(old(Value()), queueName, accepting, committed)
    {
      hide OneEach, Finished, AfterSends, Pending, Done;
      if queueName !in queues || queues[queueName] == [] {
        return true;
      }
      WorkedKeeps(Value(), queueName, accepting, committed);
      FirstOfLine(Value(), queueName);
      var c := queues[queueName][0];
      queues := queues[queueName := queues[queueName][1..]];
      if demoted {
        Demote();
      }
      var msg := new QueueMsg(c);
      var verdict, _ := Process(msg, accepting, demoted, committed);
      if verdict == Verdict.Requeued {
        queues := queues[queueName := queues[queueName] +
          [Copy(msg.queue, msg.msgID, msg.payload, msg.subList, msg.ackedSubs, msg.retryMap)]];
      } else if verdict == Verdict.Forgotten {
        Forget(msg.msgID);
      }
      assert !demoted ==> Value() == Worked(old(Value()), queueName, accepting, committed);
      return false;
    }
  }
}
