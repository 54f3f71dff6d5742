/** Queuing for a file lock with a bounded wait: try, sleep, try again until the deadline. */
module LockQueue {

  /** What one non-blocking attempt on the lock answers. */
  datatype Try = Got | Busy | Failed

  /** What came of queuing: the lock held, the wait over without it, or an error. */
  datatype Queued = Held | TimedOut | Broken

  /** Attempt `i` and those after it, the deadline passing with attempt `patience`. */
  function Wait(tries: nat -> Try, patience: nat, i: nat): Queued
    decreases if i <= patience then patience - i + 1 else 0
  {
    match tries(i)
    case Got => Held
    case Failed => Broken
    case Busy => if i >= patience then TimedOut else Wait(tries, patience, i + 1)
  }

  method Queue(tries: nat -> Try, patience: nat) returns (q: Queued)
    ensures q == Wait(tries, patience, 0)
  {
    var i: nat := 0;
    while true
      invariant i <= patience && Wait(tries, patience, i) == Wait(tries, patience, 0)
      decreases patience - i
    {
      match tries(i) {
        case Got => return Held;
        case Failed => return Broken;
        case Busy =>
      }
      if i >= patience {
        return TimedOut;
      }
      i := i + 1;
    }
  }

  /** The wait runs out exactly when every attempt up to the deadline found the lock taken,
      and otherwise the first attempt that did not decides. */
  lemma {:induction false} WaitIsFirstAnswer(tries: nat -> Try, patience: nat, i: nat)
    requires i <= patience
    ensures Wait(tries, patience, i).TimedOut? <==> forall j :: i <= j <= patience ==> tries(j) == Busy
    ensures Wait(tries, patience, i).Held? <==>
              exists j :: i <= j <= patience && tries(j) == Got && forall k :: i <= k < j ==> tries(k) == Busy
    decreases patience - i
  {
    if tries(i) == Busy && i < patience {
      WaitIsFirstAnswer(tries, patience, i + 1);
    }
  }
}
