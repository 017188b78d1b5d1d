/** 16-bit words, as the Hack platform computes on them.

Words are integers below 2^16, so that addresses and data share one type; wrap-around is written out.
The bitwise operations are defined bit by bit. */
module Words {

  type Word = x: int | 0 <= x < 0x1_0000

  function Add(x: Word, y: Word): Word {
    (x + y) % 0x1_0000
  }

  function Sub(x: Word, y: Word): Word {
    (x - y) % 0x1_0000
  }

  function Neg(x: Word): Word {
    Sub(0, x)
  }

  function Not(x: Word): Word {
    0xFFFF - x
  }

  /** The two's-complement reading of a word. */
  function Signed(x: Word): int {
    if x < 0x8000 then x else x - 0x1_0000
  }

  lemma ZeroSigned()
    ensures Signed(0) == 0
  {
  }

  lemma SignedRange(x: Word)
    ensures -0x8000 <= Signed(x) < 0x8000
  {
  }

  lemma SumSigned(x: Word, y: Word)
    ensures Signed(Add(x, y)) == Signed(x) + Signed(y) <==> -0x8000 <= Signed(x) + Signed(y) < 0x8000
  {
    assert Add(x, y) == if x + y < 0x1_0000 then x + y else x + y - 0x1_0000;
    hide Add;
  }

  lemma DifferenceSigned(x: Word, y: Word)
    ensures Signed(Sub(x, y)) == Signed(x) - Signed(y) <==> -0x8000 <= Signed(x) - Signed(y) < 0x8000
  {
    assert Sub(x, y) == if x >= y then x - y else x - y + 0x1_0000;
    hide Sub;
  }

  lemma InverseSigned(x: Word)
    ensures Signed(Not(x)) == -Signed(x) - 1
  {
  }

  function Pow2(n: nat): nat {
    if n == 0 then 1 else 2 * Pow2(n - 1)
  }

  lemma Pow2Of16()
    ensures Pow2(16) == 0x1_0000
  {
    assert Pow2(4) == 16;
    assert Pow2(8) == 256;
    assert Pow2(12) == 4096;
  }

  /** Conjunction of the n lowest bits. */
  function AndBits(n: nat, x: nat, y: nat): (r: nat)
    ensures r <= x
  {
    if n == 0 then 0
    else (if x % 2 == 1 && y % 2 == 1 then 1 else 0) + 2 * AndBits(n - 1, x / 2, y / 2)
  }

  /** Disjunction of the n lowest bits. */
  function OrBits(n: nat, x: nat, y: nat): (r: nat)
    ensures r < Pow2(n)
  {
    if n == 0 then 0
    else (if x % 2 == 1 || y % 2 == 1 then 1 else 0) + 2 * OrBits(n - 1, x / 2, y / 2)
  }

  function And(x: Word, y: Word): Word {
    AndBits(16, x, y)
  }

  function Or(x: Word, y: Word): Word {
    Pow2Of16();
    OrBits(16, x, y)
  }

  lemma {:induction false} AndBitsOnes(n: nat, x: nat)
    requires x < Pow2(n)
    ensures AndBits(n, x, Pow2(n) - 1) == x == AndBits(n, Pow2(n) - 1, x)
  {
    if n > 0 {
      assert (Pow2(n) - 1) / 2 == Pow2(n - 1) - 1;
      AndBitsOnes(n - 1, x / 2);
    }
  }

  lemma {:induction false} AndBitsZero(n: nat, x: nat)
    ensures AndBits(n, x, 0) == 0 == AndBits(n, 0, x)
  {
    if n > 0 {
      AndBitsZero(n - 1, x / 2);
    }
  }

  lemma ComplementHalf(p: nat, x: nat)
    requires x < 2 * p
    ensures (2 * p - 1 - x) / 2 == p - 1 - x / 2 && (2 * p - 1 - x) % 2 == 1 - x % 2
  {
  }

  lemma {:induction false} DeMorganBits(n: nat, x: nat, y: nat)
    requires x < Pow2(n) && y < Pow2(n)
    ensures OrBits(n, x, y) == Pow2(n) - 1 - AndBits(n, Pow2(n) - 1 - x, Pow2(n) - 1 - y)
  {
    if n > 0 {
      var p := Pow2(n - 1);
      assert Pow2(n) == 2 * p;
      hide Pow2;
      DeMorganBits(n - 1, x / 2, y / 2);
      ComplementHalf(p, x);
      ComplementHalf(p, y);
    }
  }

  /** The facts about And and Or that the ALU's truth table rests on. */
  lemma BitwiseFacts(x: Word, y: Word)
    ensures And(x, 0xFFFF) == x == And(0xFFFF, x)
    ensures And(x, 0) == 0 == And(0, x)
    ensures Or(x, y) == Not(And(Not(x), Not(y)))
  {
    Pow2Of16();
    AndBitsOnes(16, x);
    AndBitsZero(16, x);
    DeMorganBits(16, x, y);
  }

  /** How the ALU's adder and its inverters yield negation, subtraction, increment and decrement. */
  lemma AdderFacts(x: Word, y: Word)
    ensures Add(x, 0) == x == Add(0, x)
    ensures Add(x, 0xFFFF) == Sub(x, 1) == Add(0xFFFF, x)
    ensures Not(Add(x, 0xFFFF)) == Neg(x) == Not(Add(0xFFFF, x))
    ensures Not(Add(Not(x), 0xFFFF)) == Add(x, 1) == Not(Add(0xFFFF, Not(x)))
    ensures Not(Add(Not(x), y)) == Sub(x, y)
    ensures Not(Add(x, Not(y))) == Sub(y, x)
  {
    OneOperand(x);
    NotAdd(x, y);
    NotAdd(y, x);
    assert Add(x, Not(y)) == Add(Not(y), x);
    hide Add, Sub, Not, Neg;
  }

  lemma NotAdd(x: Word, y: Word)
    ensures Not(Add(Not(x), y)) == Sub(x, y)
  {
  }

  lemma OneOperand(x: Word)
    ensures Add(x, 0) == x == Add(0, x)
    ensures Add(x, 0xFFFF) == Sub(x, 1) == Add(0xFFFF, x)
    ensures Not(Add(x, 0xFFFF)) == Neg(x) == Not(Add(0xFFFF, x))
    ensures Not(Add(Not(x), 0xFFFF)) == Add(x, 1) == Not(Add(0xFFFF, Not(x)))
  {
  }
}
