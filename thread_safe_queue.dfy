/**
 * ThreadSafeQueue<T>: a FIFO over std::queue. The mutex and condition
 * variable are left out and the queue is used sequentially; the blocking
 * `pop` becomes a precondition that the queue is not empty.
 */
module Queues {
  import opened Wrappers

  /** `front` on an empty queue throws std::runtime_error("Queue is empty"). */
  datatype QueueError = QueueEmpty

  class ThreadSafeQueue<T> {
    /** The contents of `queue_`, oldest first. */
    var items: seq<T>

    constructor ()
      ensures items == []
    {
      items := [];
    }

    method Push(item: T)
      modifies this
      ensures items == old(items) + [item]
    {
      items := items + [item];
    }

    method Pop() returns (item: T)
      requires items != []
      modifies this
      ensures item == old(items)[0]
      ensures items == old(items)[1..]
    {
      item := items[0];
      items := items[1..];
    }

    method Front() returns (r: Result<T, QueueError>)
      ensures items == [] ==> r == Failure(QueueEmpty)
      ensures items != [] ==> r == Success(items[0])
    {
      if items == [] {
        return Failure(QueueEmpty);
      }
      return Success(items[0]);
    }

    method Empty() returns (b: bool)
      ensures b <==> |items| == 0
    {
      b := items == [];
    }

    method Size() returns (n: nat)
      ensures n == |items|
      ensures n == 0 <==> items == []
    {
      n := |items|;
    }
  }

  /** A sequence of queue operations, as a producer and a consumer issue them. */
  datatype Op<T> = PushOp(item: T) | PopOp

  /** The items pushed by `ops`, in order. */
  function Pushed<T>(ops: seq<Op<T>>): seq<T> {
    if ops == [] then []
    else (if ops[0].PushOp? then [ops[0].item] else []) + Pushed(ops[1..])
  }

  /**
   * Runs `ops` from `items` with the Push and Pop above: the final contents
   * and the popped items, or None when a pop would find the queue empty.
   */
  function Run<T>(items: seq<T>, ops: seq<Op<T>>): Option<(seq<T>, seq<T>)>
    decreases |ops|
  {
    if ops == [] then Some((items, []))
    else match ops[0]
      case PushOp(x) => Run(items + [x], ops[1..])
      case PopOp =>
        if items == [] then None
        else
          match Run(items[1..], ops[1..])
          case None => None
          case Some((rest, popped)) => Some((rest, [items[0]] + popped))
  }

  /** FIFO: what was popped, followed by what is left, is what was there followed by what was pushed. */
  lemma {:induction false} RunIsFifo<T>(items: seq<T>, ops: seq<Op<T>>)
    requires Run(items, ops).Some?
    ensures Run(items, ops).value.1 + Run(items, ops).value.0 == items + Pushed(ops)
    decreases |ops|
  {
    if ops != [] {
      match ops[0]
      case PushOp(x) =>
        RunIsFifo(items + [x], ops[1..]);
        assert items + [x] + Pushed(ops[1..]) == items + Pushed(ops);
      case PopOp =>
        RunIsFifo(items[1..], ops[1..]);
        var r := Run(items[1..], ops[1..]).value;
        assert Run(items, ops).value == (r.0, [items[0]] + r.1);
        assert Pushed(ops) == Pushed(ops[1..]);
        assert [items[0]] + r.1 + r.0 == [items[0]] + (items[1..] + Pushed(ops[1..]));
        assert [items[0]] + items[1..] == items;
    }
  }

  /**
   * A run never pops an empty queue when, at every point, it has popped no
   * more items than were there at the start or pushed since.
   */
  lemma {:induction false} RunSucceeds<T>(items: seq<T>, ops: seq<Op<T>>)
    requires forall k :: 0 <= k <= |ops| ==> Pops(ops[..k]) <= |items| + |Pushed(ops[..k])|
    ensures Run(items, ops).Some?
    decreases |ops|
  {
    if ops != [] {
      var rest := ops[1..];
      forall k | 0 <= k <= |rest|
        ensures Pops(rest[..k]) <= |Run1(items, ops[0])| + |Pushed(rest[..k])|
      {
        assert ops[..k + 1] == [ops[0]] + rest[..k];
        PopsCons(ops[0], rest[..k]);
        assert Pushed(ops[..k + 1]) == (if ops[0].PushOp? then [ops[0].item] else []) + Pushed(rest[..k]);
      }
      if ops[0].PopOp? {
        assert ops[..1] == [ops[0]];
        assert Pops(ops[..1]) == 1 && Pushed(ops[..1]) == [];
      }
      RunSucceeds(Run1(items, ops[0]), rest);
    }
  }

  /** Contents after one operation, ignoring a pop on an empty queue. */
  function Run1<T>(items: seq<T>, op: Op<T>): seq<T> {
    match op
    case PushOp(x) => items + [x]
    case PopOp => if items == [] then [] else items[1..]
  }

  function Pops<T>(ops: seq<Op<T>>): nat {
    if ops == [] then 0 else (if ops[0].PopOp? then 1 else 0) + Pops(ops[1..])
  }

  lemma PopsCons<T>(op: Op<T>, ops: seq<Op<T>>)
    ensures Pops([op] + ops) == (if op.PopOp? then 1 else 0) + Pops(ops)
  {
    assert ([op] + ops)[1..] == ops;
  }
}
