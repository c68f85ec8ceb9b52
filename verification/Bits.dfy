/** Bit masks as numbers. */
module Bits {

  function BitOr(a: nat, b: nat): (r: nat)
    decreases a + b
  {
    if a == 0 then b
    else if b == 0 then a
    else 2 * BitOr(a / 2, b / 2) + (if a % 2 == 1 || b % 2 == 1 then 1 else 0)
  }

  /** Every bit of a is set in b. */
  predicate BitsIn(a: nat, b: nat) {
    a == 0 || (a % 2 <= b % 2 && BitsIn(a / 2, b / 2))
  }

  lemma {:induction false} OrGains(a: nat, b: nat)
    ensures BitsIn(a, BitOr(a, b)) && BitsIn(b, BitOr(a, b))
    decreases a + b
  {
    if a == 0 {
      InItself(b);
    } else if b == 0 {
      InItself(a);
    } else {
      OrGains(a / 2, b / 2);
    }
  }

  lemma {:induction false} InItself(a: nat)
    ensures BitsIn(a, a)
  {
    if a > 0 {
      InItself(a / 2);
    }
  }

  lemma {:induction false} InTransitive(a: nat, b: nat, c: nat)
    requires BitsIn(a, b) && BitsIn(b, c)
    ensures BitsIn(a, c)
  {
    if a > 0 && b > 0 {
      InTransitive(a / 2, b / 2, c / 2);
    } else if a > 0 {
      ZeroHoldsNothing(a);
    }
  }

  lemma {:induction false} ZeroHoldsNothing(a: nat)
    requires BitsIn(a, 0)
    ensures a == 0
  {
    if a > 0 {
      ZeroHoldsNothing(a / 2);
    }
  }

  function Exp2(n: nat): nat {
    if n == 0 then 1 else 2 * Exp2(n - 1)
  }

  lemma {:induction false} OrWidth(a: nat, b: nat, n: nat)
    requires a < Exp2(n) && b < Exp2(n)
    ensures BitOr(a, b) < Exp2(n)
  {
    if a > 0 && b > 0 {
      OrWidth(a / 2, b / 2, n - 1);
    }
  }

  lemma Exp2Of32()
    ensures Exp2(32) == 0x1_0000_0000
  {
    assert Exp2(4) == 16;
    assert Exp2(8) == 256;
    assert Exp2(12) == 0x1000;
    assert Exp2(16) == 0x1_0000;
    assert Exp2(20) == 0x10_0000;
    assert Exp2(24) == 0x100_0000;
    assert Exp2(28) == 0x1000_0000;
  }
}
