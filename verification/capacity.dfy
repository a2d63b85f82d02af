/**
 The global slot semaphore shared by every bridge.  Models bridge/capacity.go.
 Each method body is one lock region; `Granted` and `Released` are what the
 interleavings of module `Fleet` are stated with.
 */
module CapacityModel {

  /** How many of `n` wanted slots TryAcquire hands out. */
  function Granted(current: int, max: int, n: int): int {
    if max - current <= 0 then 0 else if n < max - current then n else max - current
  }

  /** The in-use count after giving `n` back, floored at zero. */
  function Released(current: int, n: int): int {
    if current - n < 0 then 0 else current - n
  }

  /** Acquiring never grants more than is free, nor more than was asked, and leaves over-provisioning alone. */
  lemma GrantedBounds(current: int, max: int, n: nat)
    ensures 0 <= Granted(current, max, n) <= n
    ensures current <= max ==> current + Granted(current, max, n) <= max
    ensures current >= max ==> Granted(current, max, n) == 0
    ensures Granted(current, max, n) == n || current + Granted(current, max, n) >= max
  {
  }

  /** Giving back what was granted restores the count. */
  lemma ReleaseUndoesAcquire(current: int, max: int, n: nat)
    requires current >= 0
    ensures Released(current + Granted(current, max, n), Granted(current, max, n)) == current
  {
  }

  class Capacity {
    var current: int
    var max: int

    constructor (max: int)
      ensures this.max == max && current == 0
    {
      this.max := max;
      current := 0;
    }

    method TryAcquire(n: int) returns (acquired: int)
      modifies this`current
      ensures acquired == Granted(old(current), max, n)
      ensures current == old(current) + acquired
    {
      var available := max - current;
      if available <= 0 {
        return 0;
      }
      acquired := if n < available then n else available;
      current := current + acquired;
    }

    method Release(n: int)
      modifies this`current
      ensures current == Released(old(current), n)
    {
      current := current - n;
      if current < 0 {
        current := 0;
      }
    }

    method Reconcile(actual: int)
      modifies this`current
      ensures current == actual
    {
      current := actual;
    }

    method AdoptExisting(n: int)
      modifies this`current
      ensures current == old(current) + n
    {
      current := current + n;
    }

    /** Returns whether the registered callbacks run: only when the maximum moved. */
    method SetMax(max: int) returns (changed: bool)
      modifies this`max
      ensures this.max == max && changed == (old(this.max) != max)
    {
      changed := this.max != max;
      this.max := max;
    }
  }
}
