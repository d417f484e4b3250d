/** The work left in a system of threads: the sum of the ranks of their program counters. */
module StepMeasure {
  function Work<Pc>(rank: Pc -> nat, threads: seq<Pc>): nat {
    if threads == [] then 0 else rank(threads[0]) + Work(rank, threads[1..])
  }

  lemma {:induction false} WorkAfterMove<Pc>(rank: Pc -> nat, threads: seq<Pc>, t: nat, pc: Pc)
    requires t < |threads|
    ensures Work(rank, threads[t := pc]) == Work(rank, threads) - rank(threads[t]) + rank(pc)
  {
    if t == 0 {
      assert threads[t := pc][1..] == threads[1..];
    } else {
      assert threads[t := pc][1..] == threads[1..][t - 1 := pc];
      WorkAfterMove(rank, threads[1..], t - 1, pc);
    }
  }

  lemma {:induction false} WorkAtMost<Pc>(rank: Pc -> nat, threads: seq<Pc>, bound: nat)
    requires forall t :: 0 <= t < |threads| ==> rank(threads[t]) <= bound
    ensures Work(rank, threads) <= bound * |threads|
  {
    if threads != [] {
      WorkAtMost(rank, threads[1..], bound);
    }
  }
}
