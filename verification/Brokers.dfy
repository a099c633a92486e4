/**
  The two pull brokers: simple-mq keeps a slice per queue, simple-mq-2 a ring
  buffer per queue. They answer every sequence of requests alike.
 */
module Brokers {
  import opened Options
  import opened RingQueue

  datatype Msg = Msg(msgId: string, payload: string)

  datatype Request = Enqueue(name: string, payload: string) | Dequeue(name: string)

  /** The messages waiting in each queue. */
  type Waiting = map<string, seq<Msg>>

  function At(w: Waiting, name: string): seq<Msg> {
    if name in w then w[name] else []
  }

  /** What a request answers, nil being None. */
  function Answer(w: Waiting, r: Request): Option<Msg> {
    match r
    case Enqueue(name, payload) => Some(Msg(name + "/", payload))
    case Dequeue(name) => if At(w, name) == [] then None else Some(At(w, name)[0])
  }

  function After(w: Waiting, r: Request): Waiting {
    match r
    case Enqueue(name, payload) => w[name := At(w, name) + [Msg(name + "/", payload)]]
    case Dequeue(name) => if At(w, name) == [] then w else w[name := At(w, name)[1..]]
  }

  /** simple-mq/broker.go */
  class SimpleBroker {
    var queues: Waiting

    constructor ()
      ensures queues == map[]
    {
      queues := map[];
    }

    method Enqueue(name: string, payload: string) returns (msg: Option<Msg>)
      modifies this
      ensures msg == Answer(old(queues), Request.Enqueue(name, payload))
      ensures queues == After(old(queues), Request.Enqueue(name, payload))
    {
      var m := Msg(name + "/", payload);
      if name in queues {
        queues := queues[name := queues[name] + [m]];
      } else {
        queues := queues[name := [m]];
        assert [] + [m] == [m];
      }
      return Some(m);
    }

    method Dequeue(name: string) returns (msg: Option<Msg>)
      modifies this
      ensures msg == Answer(old(queues), Request.Dequeue(name))
      ensures queues == After(old(queues), Request.Dequeue(name))
    {
      if name in queues && |queues[name]| > 0 {
        msg := Some(queues[name][0]);
        queues := queues[name := queues[name][1..]];
      } else {
        msg := None;
      }
    }
  }

  /** simple-mq-2/broker.go: queues are made on first use, also by a dequeue. */
  class RingBroker {
    var queues: map<string, Queue<Msg>>
    ghost var repr: set<object>

    /** Every queue is valid, and no two share an object. */
    ghost predicate Valid()
      reads this, repr
      ensures Valid() ==> this in repr
    {
      && this in repr
      && (forall n :: n in queues ==> queues[n] in repr && queues[n].buf in repr && queues[n].Valid())
      && (forall m, n :: m in queues && n in queues && m != n ==>
            queues[m] != queues[n] && queues[m].buf != queues[n].buf)
    }

    ghost function Contents(name: string): seq<Msg>
      requires Valid()
      reads this, repr
    {
      if name in queues then queues[name].contents else []
    }

    constructor ()
      ensures Valid() && queues == map[] && fresh(repr)
    {
      queues := map[];
      repr := {this};
    }

    method GetOrCreateQueue(name: string) returns (q: Queue<Msg>)
      requires Valid()
      modifies this
      ensures Valid() && name in queues && q == queues[name]
      ensures old(repr) <= repr && fresh(repr - old(repr))
      ensures forall n :: Contents(n) == old(Contents(n))
    {
      hide Queue.Valid;
      if name in queues {
        return queues[name];
      }
      q := new Queue<Msg>();
      queues := queues[name := q];
      repr := repr + {q, q.buf};
    }

    method Enqueue(name: string, payload: string) returns (msg: Option<Msg>)
      requires Valid()
      modifies repr
      ensures Valid() && fresh(repr - old(repr))
      ensures msg == Some(Msg(name + "/", payload))
      ensures forall n :: Contents(n) == old(Contents(n)) + if n == name then [Msg(name + "/", payload)] else []
    {
      hide Queue.Valid;
      var m := Msg(name + "/", payload);
      var q := GetOrCreateQueue(name);
      label Before:
      q.Add(m);
      repr := repr + {q.buf};
      assert forall n :: n in queues && n != name ==>
        queues[n] != q && queues[n].contents == old@Before(queues[n].contents);
      return Some(m);
    }

    method Dequeue(name: string) returns (msg: Option<Msg>)
      requires Valid()
      modifies repr
      ensures Valid() && fresh(repr - old(repr))
      ensures msg == if old(Contents(name)) == [] then None else Some(old(Contents(name))[0])
      ensures forall n :: Contents(n) ==
                if n == name && old(Contents(n)) != [] then old(Contents(n))[1..] else old(Contents(n))
    {
      hide Queue.Valid;
      var q := GetOrCreateQueue(name);
      label Before:
      msg := q.Pop();
      repr := repr + {q.buf};
      assert forall n :: n in queues && n != name ==>
        queues[n] != q && queues[n].contents == old@Before(queues[n].contents);
    }
  }

  function AfterAll(requests: seq<Request>): Waiting {
    if requests == [] then map[] else After(AfterAll(requests[..|requests| - 1]), requests[|requests| - 1])
  }

  function AllAnswers(requests: seq<Request>): seq<Option<Msg>> {
    if requests == [] then []
    else
      var n := |requests| - 1;
      AllAnswers(requests[..n]) + [Answer(AfterAll(requests[..n]), requests[n])]
  }

  // ---- What the answers are, told by the requests alone ----

  /** The payloads enqueued under `name`, in order. */
  function Payloads(requests: seq<Request>, name: string): seq<string> {
    if requests == [] then []
    else
      var n := |requests| - 1;
      Payloads(requests[..n], name) +
      if requests[n].Enqueue? && requests[n].name == name then [requests[n].payload] else []
  }

  /** The messages that the dequeues of `name` got, in order, when the requests were answered with `answers`. */
  function Given(requests: seq<Request>, answers: seq<Option<Msg>>, name: string): seq<Msg>
    requires |answers| == |requests|
  {
    if requests == [] then []
    else
      var n := |requests| - 1;
      Given(requests[..n], answers[..n], name) +
      if requests[n] == Dequeue(name) && answers[n].Some? then [answers[n].value] else []
  }

  /** These are the answers of FIFO queues: an enqueue answers the message it makes; the k-th dequeue of a name that
      gets a message gets the payload of the k-th enqueue of that name; and a dequeue gets none exactly when every
      earlier enqueue of its name has been taken. */
  ghost predicate Fifo(requests: seq<Request>, answers: seq<Option<Msg>>) {
    && |answers| == |requests|
    && (forall i :: 0 <= i < |requests| && requests[i].Enqueue? ==>
          answers[i] == Some(Msg(requests[i].name + "/", requests[i].payload)))
    && (forall name :: InOrder(Given(requests, answers, name), Payloads(requests, name), name))
    && (forall i :: 0 <= i < |requests| && requests[i].Dequeue? ==>
          (answers[i].None? <==>
             |Given(requests[..i], answers[..i], requests[i].name)| == |Payloads(requests[..i], requests[i].name)|))
  }

  ghost predicate InOrder(given: seq<Msg>, payloads: seq<string>, name: string) {
    |given| <= |payloads| && forall k :: 0 <= k < |given| ==> given[k] == Msg(name + "/", payloads[k])
  }

  /** What waits is what was enqueued and not yet taken. */
  ghost predicate Left(waiting: seq<Msg>, given: seq<Msg>, payloads: seq<string>, name: string) {
    && |given| + |waiting| == |payloads|
    && forall k :: 0 <= k < |waiting| ==> waiting[k] == Msg(name + "/", payloads[|given| + k])
  }

  lemma {:induction false} LengthOfAnswers(requests: seq<Request>)
    ensures |AllAnswers(requests)| == |requests|
    decreases |requests|
  {
    if requests != [] { LengthOfAnswers(requests[..|requests| - 1]); }
  }

  lemma {:induction false} AnswersPrefix(requests: seq<Request>, i: nat)
    requires i <= |requests|
    ensures |AllAnswers(requests)| == |requests| && AllAnswers(requests)[..i] == AllAnswers(requests[..i])
    decreases |requests|
  {
    LengthOfAnswers(requests);
    LengthOfAnswers(requests[..i]);
    if i < |requests| {
      var n := |requests| - 1;
      AnswersPrefix(requests[..n], i);
      assert requests[..n][..i] == requests[..i];
      LengthOfAnswers(requests[..n]);
    } else {
      assert requests[..i] == requests;
    }
  }

  lemma EnqueueLeft(waiting: seq<Msg>, given: seq<Msg>, payloads: seq<string>, name: string, payload: string)
    requires Left(waiting, given, payloads, name) && InOrder(given, payloads, name)
    ensures Left(waiting + [Msg(name + "/", payload)], given, payloads + [payload], name)
    ensures InOrder(given, payloads + [payload], name)
  {
  }

  lemma DequeueLeft(waiting: seq<Msg>, given: seq<Msg>, payloads: seq<string>, name: string)
    requires Left(waiting, given, payloads, name) && InOrder(given, payloads, name) && waiting != []
    ensures Left(waiting[1..], given + [waiting[0]], payloads, name)
    ensures InOrder(given + [waiting[0]], payloads, name)
  {
  }

  /** One request, for one name. */
  lemma StepLeft(w: Waiting, r: Request, given: seq<Msg>, payloads: seq<string>, name: string)
    requires Left(At(w, name), given, payloads, name) && InOrder(given, payloads, name)
    ensures
      var a := Answer(w, r);
      var given' := given + if r == Dequeue(name) && a.Some? then [a.value] else [];
      var payloads' := payloads + if r.Enqueue? && r.name == name then [r.payload] else [];
      && Left(At(After(w, r), name), given', payloads', name) && InOrder(given', payloads', name)
      && (r == Dequeue(name) ==> (a.None? <==> |given| == |payloads|))
  {
    assert given + [] == given && payloads + [] == payloads;
    assert At(w, name) == [] <==> |given| == |payloads|;
    hide Left, InOrder;
    if r.Enqueue? && r.name == name {
      EnqueueLeft(At(w, name), given, payloads, name, r.payload);
    } else if r == Dequeue(name) && At(w, name) != [] {
      DequeueLeft(At(w, name), given, payloads, name);
    }
  }

  lemma {:induction false} WaitingIsLeft(requests: seq<Request>, name: string)
    ensures |AllAnswers(requests)| == |requests|
    ensures
      var given, payloads := Given(requests, AllAnswers(requests), name), Payloads(requests, name);
      Left(At(AfterAll(requests), name), given, payloads, name) && InOrder(given, payloads, name)
    decreases |requests|
  {
    LengthOfAnswers(requests);
    if requests != [] {
      var n := |requests| - 1;
      var front := requests[..n];
      WaitingIsLeft(front, name);
      assert AllAnswers(requests)[..n] == AllAnswers(front);
      hide Left, InOrder, After, Answer;
      StepLeft(AfterAll(front), requests[n], Given(front, AllAnswers(front), name), Payloads(front, name), name);
    }
  }

  lemma AnswersAreFifo(requests: seq<Request>)
    ensures Fifo(requests, AllAnswers(requests))
  {
    LengthOfAnswers(requests);
    var answers := AllAnswers(requests);
    forall i | 0 <= i < |requests|
      ensures answers[i] == Answer(AfterAll(requests[..i]), requests[i]) && answers[..i] == AllAnswers(requests[..i])
    {
      AnswerAt(requests, i);
    }
    forall name ensures InOrder(Given(requests, answers, name), Payloads(requests, name), name) {
      WaitingIsLeft(requests, name);
    }
    forall i | 0 <= i < |requests| && requests[i].Dequeue?
      ensures answers[i].None? <==>
              |Given(requests[..i], answers[..i], requests[i].name)| == |Payloads(requests[..i], requests[i].name)|
    {
      WaitingIsLeft(requests[..i], requests[i].name);
      StepLeft(AfterAll(requests[..i]), requests[i], Given(requests[..i], answers[..i], requests[i].name),
        Payloads(requests[..i], requests[i].name), requests[i].name);
    }
  }

  lemma AnswerAt(requests: seq<Request>, i: nat)
    requires i < |requests|
    ensures |AllAnswers(requests)| == |requests| && AllAnswers(requests)[..i] == AllAnswers(requests[..i])
    ensures AllAnswers(requests)[i] == Answer(AfterAll(requests[..i]), requests[i])
  {
    AnswersPrefix(requests, i);
    AnswersPrefix(requests, i + 1);
    LengthOfAnswers(requests[..i]);
    assert requests[..i + 1][..i] == requests[..i];
    assert AllAnswers(requests)[i] == AllAnswers(requests)[..i + 1][i];
  }

  /** The ring broker agrees with the waiting messages, queue by queue. */
  ghost predicate Agrees(b: RingBroker, w: Waiting)
    requires b.Valid()
    reads b, b.repr
  {
    forall n :: b.Contents(n) == At(w, n)
  }

  method ServeSimple(b: SimpleBroker, r: Request) returns (a: Option<Msg>)
    modifies b
    ensures a == Answer(old(b.queues), r) && b.queues == After(old(b.queues), r)
  {
    match r {
      case Enqueue(name, payload) => a := b.Enqueue(name, payload);
      case Dequeue(name) => a := b.Dequeue(name);
    }
  }

  method ServeRing(b: RingBroker, r: Request, ghost w: Waiting) returns (a: Option<Msg>)
    requires b.Valid() && Agrees(b, w)
    modifies b.repr
    ensures b.Valid() && fresh(b.repr - old(b.repr)) && Agrees(b, After(w, r)) && a == Answer(w, r)
  {
    hide Queue.Valid, RingBroker.Valid;
    match r {
      case Enqueue(name, payload) => a := b.Enqueue(name, payload);
      case Dequeue(name) => a := b.Dequeue(name);
    }
  }

  /** Refinement: for every sequence of requests over any queue names, the ring
      broker answers exactly as the slice broker does, and both as FIFO queues. */
  method ServeBoth(requests: seq<Request>) returns (simple: seq<Option<Msg>>, ring: seq<Option<Msg>>)
    ensures simple == AllAnswers(requests) && ring == simple && Fifo(requests, simple)
  {
    hide Queue.Valid, RingBroker.Valid, Agrees, After, Answer, Fifo;
    var s := new SimpleBroker();
    var b := new RingBroker();
    simple, ring := [], [];
    NothingWaits(b);
    for i := 0 to |requests|
      invariant fresh(s) && b.Valid() && fresh(b.repr) && s !in b.repr
      invariant s.queues == AfterAll(requests[..i]) && Agrees(b, s.queues)
      invariant simple == AllAnswers(requests[..i]) && ring == simple
    {
      assert requests[..i + 1][..i] == requests[..i];
      ghost var w := s.queues;
      var x := ServeRing(b, requests[i], w);
      var y := ServeSimple(s, requests[i]);
      ring, simple := ring + [x], simple + [y];
    }
    assert requests[..|requests|] == requests;
    AnswersAreFifo(requests);
  }

  lemma NothingWaits(b: RingBroker)
    requires b.Valid() && b.queues == map[]
    ensures Agrees(b, map[])
  {
  }
}
