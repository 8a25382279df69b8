/**
 Where a rotating scan looks.  The scan position is computed in 64-bit integer arithmetic;
 below it is related to plain rotation around the list.
 */
module Rotation {
  const TWO_63: int := 0x8000_0000_0000_0000
  const TWO_64: int := 0x1_0000_0000_0000_0000

  /** What a 64-bit counter can hold. */
  type Word64 = v: int | 0 <= v < TWO_64

  function Increment(counter: Word64): Word64 {
    if counter + 1 == TWO_64 then 0 else counter + 1
  }

  /** The signed 64-bit integer with the low 64 bits of `v`. */
  function Int64(v: int): int {
    var low := v % TWO_64;
    if low < TWO_63 then low else low - TWO_64
  }

  /** The remainder of a division that truncates toward zero. */
  function Remainder(a: int, n: nat): int
    requires n > 0
  {
    if a >= 0 then a % n else -((-a) % n)
  }

  /** The position scanned at offset `i` when the rotation counter read `counter`. */
  function Position(counter: Word64, i: nat, n: nat): int
    requires n > 0
  {
    Remainder(Int64(Int64(counter) + i), n)
  }

  /******* Division *******/

  lemma WholeTurns(k: int, n: nat)
    ensures k >= 1 ==> k * n >= n
    ensures k <= -1 ==> k * n <= 0 - n
  {
    if k >= 1 {
      assert (k - 1) * n >= 0;
    } else if k <= -1 {
      assert (-k - 1) * n >= 0;
    }
  }

  lemma DivMod(a: int, n: nat)
    requires n > 0
    ensures a == (a / n) * n + a % n && 0 <= a % n < n
  {
  }

  lemma Factor(a: int, b: int, n: int)
    ensures a * n - b * n == (a - b) * n
  {
  }

  lemma ModUnique(a: int, n: nat, q: int, r: int)
    requires n > 0 && a == q * n + r && 0 <= r < n
    ensures a % n == r
  {
    DivMod(a, n);
    Factor(q, a / n, n);
    WholeTurns(q - a / n, n);
  }

  /** Adding less than a whole turn wraps at most once. */
  lemma AddMod(a: nat, i: nat, n: nat)
    requires n > 0 && i <= n
    ensures (a + i) % n == if a % n + i < n then a % n + i else a % n + i - n
  {
    DivMod(a, n);
    Factor(a / n, -1, n);
    if a % n + i < n {
      ModUnique(a + i, n, a / n, a % n + i);
    } else if i < n || a % n < n {
      ModUnique(a + i, n, a / n + 1, a % n + i - n);
    }
  }

  lemma PredecessorOfMultiple(a: nat, n: nat)
    requires a > 0 && n > 1 && a % n == 0
    ensures (a - 1) % n == n - 1
  {
    DivMod(a, n);
    Factor(a / n, 1, n);
    ModUnique(a - 1, n, a / n - 1, n - 1);
  }

  /******* The range of a scan *******/

  lemma SmallInt64(v: int)
    requires 0 <= v < TWO_63
    ensures Int64(v) == v
  {
  }

  predicate InRange(counter: Word64, i: nat, n: nat)
    requires n > 0
  {
    0 <= Position(counter, i, n) < n
  }

  predicate AllPositionsInRange(counter: Word64, n: nat)
    requires n > 0
  {
    forall i | 0 <= i < n :: InRange(counter, i, n)
  }

  lemma LowCounter(counter: Word64, n: nat)
    requires n > 0 && counter + n <= TWO_63
    ensures AllPositionsInRange(counter, n)
  {
    forall i | 0 <= i < n ensures InRange(counter, i, n) {
      SmallInt64(counter);
      SmallInt64(counter + i);
      DivMod(counter + i, n);
    }
  }

  lemma LastStepWraps(counter: Word64, n: nat)
    requires n > 1 && counter + n == TWO_63 + 1 && TWO_63 % n == 0
    ensures AllPositionsInRange(counter, n)
    ensures Position(counter, n - 1, n) == 0
  {
    SmallInt64(counter);
    assert Int64(counter + (n - 1)) == -TWO_63;
    forall i | 0 <= i < n ensures InRange(counter, i, n) {
      DivMod(counter + i, n);
      if i < n - 1 {
        SmallInt64(counter + i);
      }
    }
  }

  lemma NegativePosition(counter: Word64, i: nat, n: nat, k: nat)
    requires i < n && Int64(Int64(counter) + i) == 0 - k && k % n != 0
    ensures !AllPositionsInRange(counter, n)
  {
    DivMod(k, n);
    assert !InRange(counter, i, n);
  }

  /** Where a wrapped counter starts, and the step after. */
  lemma WrappedInt64(counter: Word64)
    requires TWO_63 <= counter
    ensures Int64(Int64(counter) + 0) == counter - TWO_64
    ensures Int64(Int64(counter) + 1) == counter - TWO_64 + 1
  {
  }

  lemma WrappedCounter(counter: Word64, n: nat, k: nat)
    requires 1 < n && TWO_63 <= counter && k == TWO_64 - counter
    ensures !AllPositionsInRange(counter, n)
  {
    WrappedInt64(counter);
    if k % n == 0 {
      PredecessorOfMultiple(k, n);
      NegativePosition(counter, 1, n, k - 1);
    } else {
      NegativePosition(counter, 0, n, k);
    }
  }

  lemma CrossingCounter(counter: Word64, n: nat)
    requires 1 < n && counter < TWO_63 < counter + n
    requires counter + n > TWO_63 + 1 || TWO_63 % n != 0
    ensures !AllPositionsInRange(counter, n)
  {
    var j := TWO_63 - counter;
    if TWO_63 % n != 0 {
      NegativePosition(counter, j, n, TWO_63);
    } else {
      PredecessorOfMultiple(TWO_63, n);
      NegativePosition(counter, j + 1, n, TWO_63 - 1);
    }
  }

  /** A full scan indexes inside the list exactly when the list has one element, or the
      counter is small enough, or the scan's very last step is the only one that wraps
      and the list length divides 2^63. */
  lemma PositionsInRange(counter: Word64, n: nat)
    requires n > 0
    ensures AllPositionsInRange(counter, n) <==>
            || n == 1
            || counter + n <= TWO_63
            || (counter + n == TWO_63 + 1 && TWO_63 % n == 0)
  {
    if counter + n <= TWO_63 {
      LowCounter(counter, n);
    } else if n == 1 {
      assert InRange(counter, 0, n);
    } else if counter >= TWO_63 {
      WrappedCounter(counter, n, TWO_64 - counter);
    } else if counter + n == TWO_63 + 1 && TWO_63 % n == 0 {
      LastStepWraps(counter, n);
    } else {
      CrossingCounter(counter, n);
    }
  }

  /** The least counter beyond the limit, and a list of two: the scan starts before the
      list. */
  lemma OutOfRangeExample()
    ensures Position(9223372036854775808, 1, 2) == -1 && !AllPositionsInRange(9223372036854775808, 2)
  {
    assert !InRange(TWO_63, 1, 2);
  }

  /******* Plain rotation *******/

  /** The position `i` steps after `r`, around a list of length `n`. */
  function Slot(r: nat, i: nat, n: nat): nat {
    if r + i < n then r + i else if r + i >= n + n then 0 else r + i - n
  }

  /** The position `x` steps before `p`; also the number of steps from `x` to `p`. */
  function Back(p: nat, x: nat, n: nat): nat {
    if x <= p then p - x else if x > p + n then 0 else p + n - x
  }

  /** Walking forward from `r`, each position is as far behind `p` as is left to walk. */
  lemma SlotIsBack(r: nat, p: nat, j: nat, n: nat)
    requires r < n && p < n && j <= Back(p, r, n)
    ensures Slot(r, j, n) == Back(p, Back(p, r, n) - j, n) < n
    ensures Slot(r, Back(p, r, n), n) == p && Back(p, r, n) < n
  {
  }

  /** Where the rotation stands when the counter reads `counter`. */
  function Start(counter: nat, n: nat): nat {
    if counter == 0 then 0 else Slot(Start(counter - 1, n), 1, n)
  }

  lemma {:induction false} StartIsRemainder(counter: nat, n: nat)
    requires n > 0
    ensures Start(counter, n) == counter % n
  {
    if counter == 0 {
      ModUnique(0, n, 0, 0);
    } else {
      StartIsRemainder(counter - 1, n);
      AddMod(counter - 1, 1, n);
      DivMod(counter - 1, n);
    }
  }

  lemma {:induction false} NextStart(counter: nat, i: nat, n: nat)
    requires i < n
    ensures Start(counter, n) < n && Start(counter + i, n) == Slot(Start(counter, n), i, n)
    decreases counter, i
  {
    if i > 0 {
      NextStart(counter, i - 1, n);
      assert Start(counter + i, n) == Slot(Start(counter + i - 1, n), 1, n);
    } else if counter > 0 {
      NextStart(counter - 1, 0, n);
    }
  }

  lemma PositionIsRemainder(counter: Word64, i: nat, n: nat)
    requires i < n && counter + n <= TWO_63
    ensures Position(counter, i, n) == (counter + i) % n
  {
    SmallInt64(counter);
    SmallInt64(counter + i);
  }

  lemma LowPositionIsSlot(counter: Word64, i: nat, n: nat)
    requires i < n && counter + n <= TWO_63
    ensures Position(counter, i, n) == Slot(Start(counter, n), i, n)
  {
    PositionIsRemainder(counter, i, n);
    StartIsRemainder(counter + i, n);
    NextStart(counter, i, n);
  }

  lemma LastPositionIsSlot(counter: Word64, i: nat, n: nat)
    requires i < n && n > 1 && counter + n == TWO_63 + 1 && TWO_63 % n == 0
    ensures Position(counter, i, n) == Slot(Start(counter, n), i, n)
  {
    StartIsRemainder(counter + i, n);
    NextStart(counter, i, n);
    if i < n - 1 {
      SmallInt64(counter);
      SmallInt64(counter + i);
    } else {
      LastStepWraps(counter, n);
    }
  }

  /** A scan that stays in range is a plain rotation. */
  lemma {:induction false} PositionIsSlot(counter: Word64, i: nat, n: nat)
    requires i < n && AllPositionsInRange(counter, n)
    ensures Position(counter, i, n) == Slot(Start(counter, n), i, n)
  {
    PositionsInRange(counter, n);
    if n == 1 {
      assert InRange(counter, 0, n);
      NextStart(counter, 0, n);
    } else if counter + n <= TWO_63 {
      LowPositionIsSlot(counter, i, n);
    } else {
      LastPositionIsSlot(counter, i, n);
    }
  }
}
