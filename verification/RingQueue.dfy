/**
  The growing and shrinking ring buffer that every broker of the repository
  schedules messages in: a FIFO queue whose resizing costs a constant number of
  slot copies per operation and whose space follows its contents.
 */
module RingQueue {
  import opened Options

  const INITIAL_CAPACITY: nat := 10

  /** The capacities that doubling and halving reach: 10, 20, 40, ... */
  predicate IsCapacity(n: nat) {
    n == INITIAL_CAPACITY || (n > INITIAL_CAPACITY && n % 2 == 0 && IsCapacity(n / 2))
  }

  /** Slot i of a ring that starts at `head`. */
  function Slot(head: nat, i: nat, capacity: nat): nat
    requires capacity > 0
  {
    (head + i) % capacity
  }

  lemma SlotWraps(head: nat, i: nat, capacity: nat)
    requires head < capacity && i <= capacity
    ensures Slot(head, i, capacity) == if head + i < capacity then head + i else head + i - capacity
  {
  }

  /** The `count` elements of the ring, oldest first. */
  ghost function Ring<T>(buf: seq<Option<T>>, head: nat, count: nat): seq<Option<T>>
    requires head < |buf| && count <= |buf|
  {
    seq(count, i requires 0 <= i < count => buf[Slot(head, i, |buf|)])
  }

  function Wrap<T>(s: seq<T>): (r: seq<Option<T>>)
    ensures |r| == |s| && forall i :: 0 <= i < |s| ==> r[i] == Some(s[i])
  {
    seq(|s|, i requires 0 <= i < |s| => Some(s[i]))
  }

  lemma WrapConcat<T>(a: seq<T>, b: seq<T>)
    ensures Wrap(a + b) == Wrap(a) + Wrap(b)
  {
  }

  /** The ring laid out straight: what lies from `head` on, then what wrapped around. */
  lemma RingUnrolled<T>(buf: seq<Option<T>>, head: nat, count: nat)
    requires head < |buf| && count <= |buf|
    ensures
      var first := |buf| - head;
      Ring(buf, head, count) == if count <= first then buf[head..head + count] else buf[head..] + buf[..count - first]
  {
    forall i | 0 <= i < count ensures Slot(head, i, |buf|) == if head + i < |buf| then head + i else head + i - |buf| {
      SlotWraps(head, i, |buf|);
    }
  }

  lemma RingAdd<T>(buf: seq<Option<T>>, head: nat, count: nat, x: Option<T>)
    requires head < |buf| && count < |buf|
    ensures Ring(buf[Slot(head, count, |buf|) := x], head, count + 1) == Ring(buf, head, count) + [x]
  {
    forall i | 0 <= i <= count ensures Slot(head, i, |buf|) == if head + i < |buf| then head + i else head + i - |buf| {
      SlotWraps(head, i, |buf|);
    }
  }

  lemma RingPop<T>(buf: seq<Option<T>>, head: nat, count: nat)
    requires head < |buf| && 0 < count <= |buf|
    ensures Ring(buf[head := None], Slot(head, 1, |buf|), count - 1) == Ring(buf, head, count)[1..]
    ensures Ring(buf, head, count)[0] == buf[head]
  {
    var next := Slot(head, 1, |buf|);
    SlotWraps(head, 1, |buf|);
    SlotWraps(head, 0, |buf|);
    forall i | 0 <= i < count - 1
      ensures Slot(next, i, |buf|) == Slot(head, i + 1, |buf|) != head
    {
      SlotWraps(next, i, |buf|);
      SlotWraps(head, i + 1, |buf|);
    }
  }

  /** A buffer that starts with the ring laid out straight holds the same elements from slot 0 on. */
  lemma LaidOut<T>(buf: seq<Option<T>>, head: nat, count: nat, straight: seq<Option<T>>)
    requires head < |buf| && count <= |buf| && count <= |straight| && straight != []
    requires
      var tail := |buf| - head;
      if count <= tail then straight[..count] == buf[head..head + count]
      else straight[..tail] == buf[head..] && straight[tail..count] == buf[..count - tail]
    ensures Ring(straight, 0, count) == Ring(buf, head, count)
  {
    RingUnrolled(buf, head, count);
    RingUnrolled(straight, 0, count);
    var tail := |buf| - head;
    if count > tail {
      assert straight[..count] == straight[..tail] + straight[tail..count];
    }
  }

  /** Copying the part from `head` on, and then the part that wrapped around, lays the ring out. */
  lemma Straightened<T>(items: seq<Option<T>>, head: nat, count: nat, first: seq<Option<T>>, blank: seq<Option<T>>,
                        s: seq<Option<T>>)
    requires head < |items| && count <= |items| && count <= |blank|
    requires first == items[head..head + Min(|items| - head, |blank|)]
    requires
      var tail, once := |items| - head, first + blank[|first|..];
      s == if count <= tail then once else once[..tail] + items[..count - tail] + once[count..]
    ensures |s| == |blank|
    ensures
      var tail := |items| - head;
      if count <= tail then s[..count] == items[head..head + count]
      else s[..tail] == items[head..] && s[tail..count] == items[..count - tail]
  {
  }

  function Min(a: int, b: int): int { if a < b then a else b }

  function Max(a: int, b: int): int { if a < b then b else a }

  function Abs(a: int): nat { if a < 0 then -a else a }

  /** The potential that pays for the next resize. */
  function Potential(count: nat, capacity: nat): nat {
    Abs(2 * count - capacity)
  }

  /** The space law: the initial capacity, or less than four slots per element. */
  predicate Spacious(count: nat, capacity: nat) {
    capacity == INITIAL_CAPACITY || capacity < 4 * count
  }

  method CopySlots<T>(dst: array<Option<T>>, at: nat, src: seq<Option<T>>)
    requires at + |src| <= dst.Length
    modifies dst
    ensures dst[..] == old(dst[..at]) + src + old(dst[at + |src|..])
  {
    for i := 0 to |src|
      invariant forall j :: 0 <= j < dst.Length ==>
                  dst[j] == if at <= j < at + i then src[j - at] else old(dst[j])
    {
      dst[at + i] := src[i];
    }
  }

  /** The copying of copyOver, into a new buffer of `capacity` slots. */
  method Straighten<T>(items: seq<Option<T>>, head: nat, count: nat, capacity: nat)
    returns (newBuf: array<Option<T>>, moved: nat)
    requires head < |items| && count <= |items| && count <= capacity && 0 < capacity
    ensures fresh(newBuf) && newBuf.Length == capacity && Ring(newBuf[..], 0, count) == Ring(items, head, count)
    ensures moved <= Min(capacity, |items|)
  {
    hide Ring;
    newBuf := new Option<T>[capacity](_ => None);
    ghost var blank := newBuf[..];
    var tail := |items| - head;
    var first := items[head..head + Min(tail, capacity)];
    CopySlots(newBuf, 0, first);
    ghost var once := first + blank[|first|..];
    assert newBuf[..] == once;
    moved := |first|;
    var remaining := count - tail;
    if remaining > 0 {
      CopySlots(newBuf, tail, items[..remaining]);
      assert newBuf[..] == once[..tail] + items[..count - tail] + once[count..];
      moved := moved + remaining;
    }
    Straightened(items, head, count, first, blank, newBuf[..]);
    LaidOut(items, head, count, newBuf[..]);
  }

  class Queue<T> {
    var buf: array<Option<T>>
    var head: nat
    var count: nat
    ghost var contents: seq<T>
    ghost var copied: nat // slots copied by resizing so far

    ghost predicate Valid()
      reads this, buf
    {
      && IsCapacity(buf.Length) && head < buf.Length && count < buf.Length
      && |contents| == count && Ring(buf[..], head, count) == Wrap(contents)
      && Spacious(count, buf.Length)
    }

    constructor ()
      ensures Valid() && fresh(buf) && contents == [] && copied == 0 && buf.Length == INITIAL_CAPACITY
    {
      buf := new Option<T>[INITIAL_CAPACITY](_ => None);
      head, count, contents, copied := 0, 0, [], 0;
    }

    /** The potential of the current state. */
    ghost function Credit(): nat
      reads this, buf
    {
      Potential(count, buf.Length)
    }

    /** copyOver: the panic guard `count > len(newBuf)` is this precondition, met at both calls. */
    method CopyOver(capacity: nat)
      requires head < buf.Length && count <= buf.Length && count <= capacity && 0 < capacity
      requires |contents| == count && Ring(buf[..], head, count) == Wrap(contents)
      modifies this
      ensures fresh(buf) && buf.Length == capacity && head == 0 && count == old(count) && contents == old(contents)
      ensures Ring(buf[..], head, count) == Wrap(contents)
      ensures copied <= old(copied) + Min(capacity, old(buf.Length))
    {
      hide Ring, Wrap;
      var newBuf, moved := Straighten(buf[..], head, count, capacity);
      copied := copied + moved;
      buf, head := newBuf, 0;
    }

    method Grow()
      requires count == buf.Length && IsCapacity(buf.Length) && head < buf.Length
      requires |contents| == count && Ring(buf[..], head, count) == Wrap(contents)
      modifies this
      ensures Valid() && fresh(buf) && contents == old(contents)
      ensures copied + Credit() <= old(copied) + old(Credit())
    {
      CopyOver(buf.Length * 2);
    }

    method Compact()
      requires count * 4 <= buf.Length < 4 * (count + 1) || buf.Length == INITIAL_CAPACITY
      requires IsCapacity(buf.Length) && head < buf.Length && count < buf.Length && count * 4 <= buf.Length
      requires |contents| == count && Ring(buf[..], head, count) == Wrap(contents)
      modifies this
      ensures Valid() && fresh(buf) && contents == old(contents)
      ensures copied + Credit() <= old(copied) + old(Credit()) + 10
    {
      CopyOver(Max(buf.Length / 2, INITIAL_CAPACITY));
    }

    /** Add: at the end of the queue; grows a full buffer. Amortised, two copies pay for it. */
    method Add(x: T)
      requires Valid()
      modifies this, buf
      ensures Valid() && (buf == old(buf) || fresh(buf)) && contents == old(contents) + [x]
      ensures copied + Credit() <= old(copied) + old(Credit()) + 2
    {
      RingAdd(buf[..], head, count, Some(x));
      WrapConcat(contents, [x]);
      ghost var was := buf[..];
      var ind := (head + count) % buf.Length;
      buf[ind] := Some(x);
      assert buf[..] == was[Slot(head, count, |was|) := Some(x)];
      count, contents := count + 1, contents + [x];
      if count >= buf.Length {
        Grow();
      }
    }

    /** Pop: the oldest element, or nothing; shrinks a sparse buffer. Amortised, twelve copies pay for it. */
    method Pop() returns (r: Option<T>)
      requires Valid()
      modifies this, buf
      ensures Valid() && (buf == old(buf) || fresh(buf))
      ensures r == if old(contents) == [] then None else Some(old(contents)[0])
      ensures contents == if old(contents) == [] then [] else old(contents)[1..]
      ensures copied + Credit() <= old(copied) + old(Credit()) + 12
    {
      if count == 0 {
        return None;
      }
      RingPop(buf[..], head, count);
      ghost var was := buf[..];
      r := buf[head];
      buf[head] := None;
      assert buf[..] == was[head := None];
      assert Wrap(contents)[1..] == Wrap(contents[1..]);
      head := (head + 1) % buf.Length;
      count, contents := count - 1, contents[1..];
      if count * 4 <= buf.Length {
        Compact();
      }
    }
  }

  // ---- Whole runs ----

  datatype Op<T> = AddOp(x: T) | PopOp

  /** What a FIFO queue holds after `ops`. */
  function Held<T>(ops: seq<Op<T>>): seq<T> {
    if ops == [] then []
    else
      var s := Held(ops[..|ops| - 1]);
      match ops[|ops| - 1]
      case AddOp(x) => s + [x]
      case PopOp => if s == [] then [] else s[1..]
  }

  /** What a FIFO queue answers to the pops among `ops`. */
  function Answers<T>(ops: seq<Op<T>>): seq<Option<T>> {
    if ops == [] then []
    else
      var s, given := Held(ops[..|ops| - 1]), Answers(ops[..|ops| - 1]);
      match ops[|ops| - 1]
      case AddOp(_) => given
      case PopOp => given + [if s == [] then None else Some(s[0])]
  }

  /** The elements added, in order. */
  function Added<T>(ops: seq<Op<T>>): seq<T> {
    if ops == [] then []
    else Added(ops[..|ops| - 1]) + if ops[|ops| - 1].AddOp? then [ops[|ops| - 1].x] else []
  }

  /** The elements that pops got, in order. */
  function Got<T>(answers: seq<Option<T>>): seq<T> {
    if answers == [] then []
    else Got(answers[..|answers| - 1]) + if answers[|answers| - 1].Some? then [answers[|answers| - 1].value] else []
  }

  /** First in, first out, told by the operations alone: what pops got, followed by what is left, is what was added, in
      order. */
  lemma {:induction false} NothingLost<T>(ops: seq<Op<T>>)
    ensures Got(Answers(ops)) + Held(ops) == Added(ops)
    decreases |ops|
  {
    if ops != [] {
      var front := ops[..|ops| - 1];
      NothingLost(front);
      var s, given := Held(front), Answers(front);
      match ops[|ops| - 1]
      case AddOp(x) => assert Got(given) + (s + [x]) == Got(given) + s + [x];
      case PopOp =>
        var a := if s == [] then None else Some(s[0]);
        assert (given + [a])[..|given|] == given;
        if s != [] { assert Got(given) + [s[0]] + s[1..] == Got(given) + s; }
    }
  }

  /** And a pop gets nothing exactly when everything added before it has been taken. */
  lemma PopsNothingIffDrained<T>(ops: seq<Op<T>>)
    requires ops != [] && ops[|ops| - 1].PopOp?
    ensures Answers(ops) != []
    ensures
      var front := ops[..|ops| - 1];
      Answers(ops)[|Answers(ops)| - 1].None? <==> |Got(Answers(front))| == |Added(front)|
  {
    NothingLost(ops[..|ops| - 1]);
    assert |Added(ops[..|ops| - 1])| == |Got(Answers(ops[..|ops| - 1]))| + |Held(ops[..|ops| - 1])|;
  }

  /** Any run of n operations answers as a FIFO queue, copies at most 12n + 10
      slots in all its resizing, and ends with the space law. */
  method Drive<T>(ops: seq<Op<T>>) returns (q: Queue<T>, answers: seq<Option<T>>)
    ensures q.Valid() && q.contents == Held(ops) && answers == Answers(ops)
    ensures Got(answers) + q.contents == Added(ops)
    ensures q.copied <= 12 * |ops| + 10
    ensures q.buf.Length == INITIAL_CAPACITY || q.buf.Length < 4 * |Held(ops)|
  {
    q := new Queue<T>();
    answers := [];
    for i := 0 to |ops|
      invariant q.Valid() && fresh(q) && fresh(q.buf)
      invariant q.contents == Held(ops[..i]) && answers == Answers(ops[..i])
      invariant q.copied + q.Credit() <= 12 * i + 10
    {
      assert ops[..i + 1][..i] == ops[..i];
      match ops[i] {
        case AddOp(x) => q.Add(x);
        case PopOp =>
          var r := q.Pop();
          answers := answers + [r];
      }
    }
    assert ops[..|ops|] == ops;
    NothingLost(ops);
  }
}
