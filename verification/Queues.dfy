/** Bounded queues whose producers never block. */
module Queues {

  /** Room for one more element that may be lost, with `reserve` places held back for others. */
  predicate AdmitExpendable(length: nat, capacity: nat, reserve: nat): (ok: bool)
    ensures length + reserve < capacity ==> ok
    ensures ok ==> length + reserve < capacity || (length == 0 && capacity <= reserve)
    ensures length == 0 ==> ok
  {
    length < if capacity < reserve + 1 then 1 else capacity - reserve
  }

  /** Delivers `v` whatever it takes: a full queue gives up its oldest element. */
  function PushNewest<T>(q: seq<T>, v: T, capacity: nat): (r: seq<T>)
    requires 0 < capacity
    ensures 0 < |r| && r[|r| - 1] == v
    ensures |r| == if |q| < capacity then |q| + 1 else |q|
  {
    if |q| < capacity then q + [v] else q[1..] + [v]
  }
}
