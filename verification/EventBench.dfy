/**
 * The self-rescheduling benchmark of utils/bench-simulator.cc, under any scheduler: each step
 * fires an arbitrary pending event, and every delay is arbitrary.
 */
module EventBench {

  function Max(a: nat, b: nat): nat {
    if a < b then b else a
  }

  class Bench {
    const population: nat
    const total: nat
    var count: nat
    var pending: multiset<nat>
    var fired: nat

    constructor (population: nat, total: nat)
      ensures this.population == population && this.total == total
      ensures count == 0 && pending == multiset{} && fired == 0
    {
      this.population, this.total := population, total;
      count, pending, fired := 0, multiset{}, 0;
    }

    /** The callback: it schedules a successor while the total is not reached. */
    method Cb(now: nat, delay: nat)
      modifies this`count, this`pending
      ensures old(count) >= total ==> count == old(count) && pending == old(pending)
      ensures old(count) < total ==> count == old(count) + 1 && pending == old(pending) + multiset{now + delay}
    {
      if count >= total {
        return;
      }
      pending := pending + multiset{now + delay};
      count := count + 1;
    }

    /** What holds between any two events: every event fired or pending was scheduled, at first
        or by one of the `count` callbacks, and a callback that stops does so for good. */
    ghost predicate Running()
      reads this
    {
      && fired + |pending| == population + count
      && count <= total && |pending| <= population
      && (population > 0 && count < total ==> |pending| == population)
    }

    /** Fires exactly `population + total` events, whatever the scheduler picks; `peak` is the
        largest number of events ever pending. */
    method RunBench(delays: nat -> nat) returns (ghost peak: nat)
      requires pending == multiset{} && fired == 0
      modifies this
      ensures pending == multiset{}
      ensures population > 0 ==> count == total && fired == population + total
      ensures population == 0 ==> count == 0 && fired == 0
      ensures peak <= population
    {
      count := 0;
      for i := 0 to population
        invariant |pending| == i && count == 0 && fired == 0
      {
        pending := pending + multiset{delays(i)};
      }
      peak := |pending|;
      while pending != multiset{}
        invariant Running() && (population == 0 ==> count == 0)
        invariant |pending| <= peak <= population
        decreases total - count + |pending|
      {
        var now :| now in pending;
        pending := pending - multiset{now};
        fired := fired + 1;
        Cb(now, delays(population + fired));
        peak := Max(peak, |pending|);
      }
    }
  }
}
