/** Indices that walk round a cycle of n places, as the C code does it: increment,
    and start again at 0 when the end is reached. */
module Cycles {

  /** The place an index stands at after i increments from 0. */
  function Slot(i: nat, n: nat): (r: nat)
    requires n > 0
    ensures r < n && r <= i && (i < n ==> r == i)
  {
    if i == 0 then 0
    else
      var r := Slot(i - 1, n) + 1;
      if r >= n then 0 else r
  }

  lemma {:induction false} SlotPlus(i: nat, d: nat, n: nat)
    requires n > 0 && d < n
    ensures Slot(i + d, n) == if Slot(i, n) + d < n then Slot(i, n) + d else Slot(i, n) + d - n
  {
    if d > 0 {
      SlotPlus(i, d - 1, n);
    }
  }

  lemma {:induction false} SlotPeriod(i: nat, n: nat)
    requires n > 0
    ensures Slot(i + n, n) == Slot(i, n)
  {
    if i > 0 {
      SlotPeriod(i - 1, n);
    }
  }

  lemma {:induction false} SlotIsMod(i: nat, n: nat)
    requires n > 0
    ensures Slot(i, n) == i % n
  {
    if i >= n {
      SlotPeriod(i - n, n);
      SlotIsMod(i - n, n);
      ModPeriod(i, n);
    } else {
      SmallMod(i, n);
    }
  }

  lemma SmallMod(i: nat, n: nat)
    requires i < n
    ensures i % n == i
  {
  }

  lemma ModPeriod(i: int, n: int)
    requires n > 0
    ensures i % n == (i - n) % n
  {
    var d := i / n - (i - n) / n;
    assert n * d == n * (i / n) - n * ((i - n) / n);
    OneMultiple(n, d);
  }

  lemma Multiples(n: int, a: int, b: int)
    requires n >= 0 && a <= b
    ensures n * a <= n * b
  {
    assert n * (b - a) >= 0;
  }

  lemma OneMultiple(n: int, d: int)
    requires n > 0 && 0 < n * d < 2 * n
    ensures d == 1
  {
    if d >= 2 {
      Multiples(n, 2, d);
    } else if d <= 0 {
      Multiples(n, d, 0);
    }
  }
}
