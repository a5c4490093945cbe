/** The one-slot wake-up channel between enqueuers and the polling loop. */
module Scheduler {

  class EventScheduler {
    var buffered: nat   // length of the notification channel, capacity 1

    ghost predicate Valid()
      reads this
    {
      buffered <= 1
    }

    constructor ()
      ensures Valid() && buffered == 0
    {
      buffered := 0;
    }

    /** Non-blocking send: dropped when a wake-up is already waiting. */
    method Notify()
      requires Valid()
      modifies this
      ensures Valid() && buffered == 1
    {
      if buffered < 1 {
        buffered := buffered + 1;
      }
    }

    /** The loop's receive; it can only happen while a wake-up is waiting. */
    method Receive() returns (woken: bool)
      requires Valid()
      modifies this
      ensures Valid() && woken == (old(buffered) == 1) && buffered == 0
    {
      woken := buffered > 0;
      if woken {
        buffered := buffered - 1;
      }
    }
  }

  datatype Op = Notified | Received

  /** Content of the channel after a history of sends and receives. */
  function Waiting(ops: seq<Op>): nat {
    if ops == [] then 0
    else
      var before := Waiting(ops[..|ops| - 1]);
      match ops[|ops| - 1]
      case Notified => if before < 1 then before + 1 else before
      case Received => if before > 0 then before - 1 else before
  }

  /** The buffer never holds more than one wake-up. */
  lemma {:induction false} AtMostOneWaiting(ops: seq<Op>)
    ensures Waiting(ops) <= 1
  {
    if ops != [] {
      AtMostOneWaiting(ops[..|ops| - 1]);
    }
  }

  /** A receive is possible only when something is waiting. */
  ghost predicate Possible(ops: seq<Op>) {
    forall i | 0 <= i < |ops| && ops[i].Received? :: Waiting(ops[..i]) == 1
  }

  function Count(ops: seq<Op>, op: Op): nat {
    if ops == [] then 0 else Count(ops[..|ops| - 1], op) + if ops[|ops| - 1] == op then 1 else 0
  }

  /** Coalescing loses no wake-up: each notification is followed by a receive, or is still waiting. */
  lemma {:induction false} NoWakeUpIsLost(ops: seq<Op>, i: nat)
    requires i < |ops| && ops[i].Notified?
    ensures Waiting(ops) == 1 || exists n :: i < n < |ops| && ops[n].Received?
  {
    AtMostOneWaiting(ops[..|ops| - 1]);
    if i < |ops| - 1 && ops[|ops| - 1].Notified? {
      NoWakeUpIsLost(ops[..|ops| - 1], i);
    }
  }

  /** And it invents none: receives and the waiting one never outnumber the notifications. */
  lemma {:induction false} NoWakeUpIsInvented(ops: seq<Op>)
    requires Possible(ops)
    ensures Count(ops, Received) + Waiting(ops) <= Count(ops, Notified)
  {
    if ops != [] {
      var front := ops[..|ops| - 1];
      assert forall i | 0 <= i < |front| :: front[..i] == ops[..i];
      NoWakeUpIsInvented(front);
    }
  }
}
