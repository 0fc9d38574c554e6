/** The unbounded event queue behind a task's `events`: producers push and close, one consumer
    asks for the next event and may have to wait. */
module EventQueue {

  datatype Op<E> = Push(event: E) | Done | Next

  /** What a `next()` promise resolves to. */
  datatype Reply<E> = Event(event: E) | End

  // -- The channel the queue implements ------------------------------------------------

  ghost predicate Closed<E>(ops: seq<Op<E>>) {
    exists i :: 0 <= i < |ops| && ops[i].Done?
  }

  /** The events pushed before the channel was closed, in order. */
  ghost function Accepted<E>(ops: seq<Op<E>>): seq<E> {
    if ops == [] then []
    else
      var before, op := ops[..|ops| - 1], ops[|ops| - 1];
      if op.Push? && !Closed(before) then Accepted(before) + [op.event] else Accepted(before)
  }

  ghost function NextCalls<E>(ops: seq<Op<E>>): nat {
    if ops == [] then 0
    else NextCalls(ops[..|ops| - 1]) + (if ops[|ops| - 1].Next? then 1 else 0)
  }

  /** `next()` number `i` is answered with accepted event number `i`; when there is none it is
      answered with the end marker once the channel is closed, and waits until then. */
  ghost predicate AnswersAsChannel<E>(ops: seq<Op<E>>, replies: map<nat, Reply<E>>) {
    && (forall i: nat :: i in replies <==> i < NextCalls(ops) && (i < |Accepted(ops)| || Closed(ops)))
    && forall i: nat :: i in replies ==>
         replies[i] == if i < |Accepted(ops)| then Event(Accepted(ops)[i]) else End
  }

  // -- The queue -------------------------------------------------------------------------

  class EventQueue<E> {
    var buffer: seq<E>
    /** The callbacks of pending promises, each named by the number of its `next()` call. */
    var waiters: seq<nat>
    var closed: bool
    /** The promises handed out, and those among them that have been resolved. */
    var calls: nat
    var replies: map<nat, Reply<E>>
    ghost var history: seq<Op<E>>

    ghost predicate Valid()
      reads this
    {
      var accepted := Accepted(history);
      && closed == Closed(history)
      && calls == NextCalls(history)
      && AnswersAsChannel(history, replies)
      && buffer == (if calls <= |accepted| then accepted[calls..] else [])
      && |waiters| == (if closed || calls <= |accepted| then 0 else calls - |accepted|)
      && forall j :: 0 <= j < |waiters| ==> waiters[j] == |accepted| + j
    }

    constructor ()
      ensures Valid() && history == []
    {
      buffer, waiters, closed, calls, replies := [], [], false, 0, map[];
      history := [];
    }

    method Push(event: E)
      requires Valid()
      modifies this
      ensures Valid() && history == old(history) + [Op.Push(event)]
    {
      hide Accepted, NextCalls, Closed;
      ghost var ops := history + [Op.Push(event)];
      Extend(history, Op.Push(event));
      if !closed {
        if waiters != [] {
          replies := replies[waiters[0] := Event(event)];
          waiters := waiters[1..];
        } else {
          buffer := buffer + [event];
        }
      }
      history := ops;
    }

    method Done()
      requires Valid()
      modifies this
      ensures Valid() && history == old(history) + [Op.Done] && waiters == []
    {
      hide Accepted, NextCalls, Closed;
      Extend(history, Op.Done);
      ghost var first := |Accepted(history)|;
      closed := true;
      var pending := waiters;
      waiters := [];
      for k := 0 to |pending|
        invariant unchanged(`history) && unchanged(`buffer) && unchanged(`calls)
        invariant closed && waiters == []
        invariant forall i: nat :: i in replies <==> i in old(replies) || first <= i < first + k
        invariant forall i: nat :: i in old(replies) ==> replies[i] == old(replies)[i]
        invariant forall i: nat :: first <= i < first + k ==> replies[i] == End
      {
        replies := replies[pending[k] := End];
      }
      history := history + [Op.Done];
    }

    /** The number of the promise returned; it is resolved when the number is in `replies`. */
    method Next() returns (promise: nat)
      requires Valid()
      modifies this
      ensures Valid() && history == old(history) + [Op.Next]
      ensures promise == old(calls)
    {
      hide Accepted, NextCalls, Closed;
      Extend(history, Op.Next);
      promise := calls;
      calls := calls + 1;
      if buffer != [] {
        replies := replies[promise := Event(buffer[0])];
        buffer := buffer[1..];
      } else if closed {
        replies := replies[promise := End];
      } else {
        waiters := waiters + [promise];
      }
      history := history + [Op.Next];
    }
  }

  lemma Extend<E>(ops: seq<Op<E>>, op: Op<E>)
    ensures var all := ops + [op];
      && Closed(all) == (Closed(ops) || op.Done?)
      && NextCalls(all) == NextCalls(ops) + (if op.Next? then 1 else 0)
      && Accepted(all) == if op.Push? && !Closed(ops) then Accepted(ops) + [op.event] else Accepted(ops)
  {
    var all := ops + [op];
    assert all[..|all| - 1] == ops;
    assert all[|ops|] == op;
    assert forall i :: 0 <= i < |ops| ==> all[i] == ops[i];
  }

  /** Every interleaving of the three operations: the queue answers as the channel does, holds
      events or waiters but never both, and leaves nobody waiting once it is closed. */
  method Run<E>(ops: seq<Op<E>>) returns (replies: map<nat, Reply<E>>, buffer: seq<E>, waiters: seq<nat>)
    ensures AnswersAsChannel(ops, replies)
    ensures buffer == [] || waiters == []
    ensures Closed(ops) ==> waiters == []
    ensures |buffer| == if NextCalls(ops) <= |Accepted(ops)| then |Accepted(ops)| - NextCalls(ops) else 0
  {
    var q := new EventQueue<E>();
    for i := 0 to |ops|
      invariant q.Valid() && q.history == ops[..i] && fresh(q)
    {
      assert ops[..i + 1] == ops[..i] + [ops[i]];
      match ops[i] {
        case Push(event) => q.Push(event);
        case Done => q.Done();
        case Next => var _ := q.Next();
      }
    }
    assert ops[..|ops|] == ops;
    return q.replies, q.buffer, q.waiters;
  }
}
