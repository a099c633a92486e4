/**
  The wake-up token of a delivery queue: adders insert under the lock and signal
  after it, the worker pops until it finds nothing and then sleeps. No
  interleaving leaves it asleep over a queue that has work and nobody to wake it.
 */
module Wakeup {

  /** `Readding` is the worker itself between the insert and the signal of a requeue. */
  datatype WorkerState = Polling | Processing(msg: string) | Readding | Sleeping | Stopped

  /** `between` are the adders that have inserted and not yet signalled; `added` and `taken`
      record every insert and every pop so far. */
  datatype State = State(
    queue: seq<string>, token: bool, between: set<nat>, worker: WorkerState, stopping: bool, added: seq<string>,
    taken: seq<string>)

  datatype Event =
    | Insert(adder: nat, msg: string)
    | Signal(adder: nat)
    | Pop
    | PopNothing
    | Finish
    | Readd(msg: string)
    | SignalReadd
    | Wake
    | CloseStop
    | Quit

  /** The event can happen in s. */
  predicate Enabled(s: State, ev: Event) {
    match ev
    case Insert(a, _) => a !in s.between
    case Signal(a) => a in s.between
    case Pop => s.worker.Polling? && s.queue != []
    case PopNothing => s.worker.Polling? && s.queue == []
    case Finish => s.worker.Processing?
    case Readd(msg) => s.worker.Processing? && s.worker.msg == msg
    case SignalReadd => s.worker.Readding?
    case Wake => s.worker.Sleeping? && s.token
    case CloseStop => !s.stopping
    case Quit => s.stopping && (s.worker.Polling? || s.worker.Sleeping?)
  }

  /** A signal is a send that does not block on a channel of capacity one: a token already there absorbs it. */
  function Step(s: State, ev: Event): State {
    match ev
    case Insert(a, msg) => s.(queue := s.queue + [msg], added := s.added + [msg], between := s.between + {a})
    case Signal(a) => s.(token := true, between := s.between - {a})
    case Pop => if s.queue == [] then s
      else s.(queue := s.queue[1..], taken := s.taken + [s.queue[0]], worker := Processing(s.queue[0]))
    case PopNothing => s.(worker := Sleeping)
    case Finish => s.(worker := Polling)
    case Readd(msg) => s.(queue := s.queue + [msg], added := s.added + [msg], worker := Readding)
    case SignalReadd => s.(token := true, worker := Polling)
    case Wake => s.(token := false, worker := Polling)
    case CloseStop => s.(stopping := true)
    case Quit => s.(worker := Stopped)
  }

  const START := State([], false, {}, Polling, false, [], [])

  ghost predicate Happens(s: State, events: seq<Event>) {
    forall k :: 0 <= k < |events| ==> Enabled(After(s, events[..k]), events[k])
  }

  function After(s: State, events: seq<Event>): State {
    if events == [] then s else Step(After(s, events[..|events| - 1]), events[|events| - 1])
  }

  ghost predicate Inv(s: State) {
    && s.taken + s.queue == s.added
    && (s.worker.Sleeping? && s.queue != [] ==> s.token || s.between != {})
  }

  lemma StepKeeps(s: State, ev: Event)
    requires Inv(s) && Enabled(s, ev)
    ensures Inv(Step(s, ev))
  {
    match ev
    case Insert(a, msg) =>
      assert a in Step(s, ev).between;
      assert s.taken + (s.queue + [msg]) == (s.taken + s.queue) + [msg];
    case Readd(msg) => assert s.taken + (s.queue + [msg]) == (s.taken + s.queue) + [msg];
    case Pop => assert (s.taken + [s.queue[0]]) + s.queue[1..] == s.taken + s.queue;
    case _ =>
  }

  lemma HappensPrefix(s: State, events: seq<Event>, n: nat)
    requires Happens(s, events) && n <= |events|
    ensures Happens(s, events[..n])
  {
    forall k | 0 <= k < n ensures Enabled(After(s, events[..n][..k]), events[..n][k]) {
      assert events[..n][..k] == events[..k];
    }
  }

  lemma {:induction false} RunKeeps(events: seq<Event>)
    requires Happens(START, events)
    ensures Inv(After(START, events))
    decreases |events|
  {
    if events != [] {
      var n := |events| - 1;
      HappensPrefix(START, events, n);
      RunKeeps(events[..n]);
      StepKeeps(After(START, events[..n]), events[n]);
    }
  }

  /** No lost wake-up, over every interleaving of any number of adders with the worker; and what
      was added is popped in order, once. */
  lemma NoLostWakeup(events: seq<Event>)
    requires Happens(START, events)
    ensures
      var s := After(START, events);
      && (s.worker.Sleeping? && s.queue != [] ==> s.token || s.between != {})
      && s.taken + s.queue == s.added
  {
    RunKeeps(events);
  }

  // ---- The worker drains its queue ----

  /** Events that bring no new work. */
  predicate Drains(ev: Event) {
    ev.Signal? || ev.Pop? || ev.PopNothing? || ev.Finish? || ev.SignalReadd? || ev.Wake?
  }

  function Weight(s: State): nat {
    3 * |s.queue| + 3 * |s.between| + (if s.token then 2 else 0) +
    match s.worker
    case Polling => 1
    case Processing(_) => 2
    case Readding => 4
    case Sleeping => 0
    case Stopped => 0
  }

  lemma DrainingFalls(s: State, ev: Event)
    requires Enabled(s, ev) && Drains(ev)
    ensures Weight(Step(s, ev)) < Weight(s)
  {
  }

  /** With no new work, the worker and the signals come to rest within a number of steps known in advance. */
  lemma {:induction false} WorkerRests(past: seq<Event>, future: seq<Event>)
    requires Happens(START, past + future) && forall k :: 0 <= k < |future| ==> Drains(future[k])
    ensures Weight(After(START, past + future)) + |future| <= Weight(After(START, past))
    decreases |future|
  {
    hide Weight, Step, Enabled;
    var all := past + future;
    if future == [] {
      assert all == past;
    } else {
      var n := |future| - 1;
      assert all[..|all| - 1] == past + future[..n] && all[|all| - 1] == future[n];
      HappensPrefix(START, all, |all| - 1);
      WorkerRests(past, future[..n]);
      assert Enabled(After(START, all[..|all| - 1]), all[|all| - 1]);
      DrainingFalls(After(START, past + future[..n]), future[n]);
    }
  }

  /** And it can only be at rest, unless stopped, asleep over an empty queue with everything taken. */
  lemma RestMeansDrained(events: seq<Event>)
    requires Happens(START, events)
    requires After(START, events).worker != Stopped && forall ev :: Drains(ev) ==> !Enabled(After(START, events), ev)
    ensures After(START, events).taken == After(START, events).added && After(START, events).worker.Sleeping?
  {
    hide Happens, After, Enabled;
    RunKeeps(events);
    AtRest(After(START, events));
  }

  lemma AtRest(s: State)
    requires Inv(s) && s.worker != Stopped && forall ev :: Drains(ev) ==> !Enabled(s, ev)
    ensures s.taken == s.added && s.worker.Sleeping?
  {
    assert !Enabled(s, Pop) && !Enabled(s, PopNothing) && !Enabled(s, Finish) && !Enabled(s, SignalReadd) &&
      !Enabled(s, Wake);
    forall a ensures a !in s.between {
      assert !Enabled(s, Signal(a));
    }
    assert s.between == {};
    assert s.queue == [];
  }
}
