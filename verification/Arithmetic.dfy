/**
 * RV32I on integers: what the register operations, comparisons and shifts of the
 * executors compute when words are read as numbers (section 2.4 of the RISC-V
 * Unprivileged ISA, version 20191213).
 */
module Arithmetic {
  import opened Bits
  import opened Machine
  import opened Multiply

  // ---- Sums ----

  lemma {:induction false} FromNatWraps(n: nat)
    ensures Value(FromNat(n)) == n % WORD
    decreases n
  {
    hide FromNat, Value, Plus;
    if n < WORD {
      FromNatValue(n);
    } else {
      FromNatWraps(n - WORD);
      FromNatPlus(n - WORD, WORD);
      WholeTurn();
      PlusZero(FromNat(n - WORD));
      ModUnique(n, n - WORD, 1);
    }
  }

  lemma WholeTurn()
    ensures FromNat(WORD) == 0
  {
    hide FromNat, Value;
    FromNatPlus(WORD - 1, 1);
    FromNatValue(WORD - 1);
    FromNatValue(1);
    ValueIsInjective(FromNat(WORD - 1), 0xFFFF_FFFF) by { LastValue(); }
    ValueIsInjective(FromNat(1), 1) by { LastValue(); }
    LastPlusOne();
  }

  lemma LastValue()
    ensures Value(0xFFFF_FFFF) == WORD - 1 && Value(1) == 1
  {
  }

  lemma LastPlusOne()
    ensures Plus(0xFFFF_FFFF, 1) == 0
  {
  }

  /** Addition is modulo 2^32. */
  lemma SumIsModular(a: bv32, b: bv32)
    ensures Value(Plus(a, b)) == (Value(a) + Value(b)) % WORD
  {
    hide FromNat, Value, Plus;
    FromNatOfWord(a);
    FromNatOfWord(b);
    FromNatPlus(Value(a), Value(b));
    FromNatWraps(Value(a) + Value(b));
  }

  /** Subtraction is modulo 2^32. */
  lemma DifferenceIsModular(a: bv32, b: bv32)
    ensures Value(Minus(a, b)) == (Value(a) - Value(b)) % WORD
  {
    hide Value, Plus, Minus;
    SumIsModular(b, Minus(a, b));
    PlusMinus(a, b);
  }

  lemma PlusMinus(a: bv32, b: bv32)
    ensures Plus(b, Minus(a, b)) == a
  {
    hide Plus, Minus;
    MinusUnfolds(a, b);
    PlusBack(a, b, Minus(a, b));
  }

  lemma MinusUnfolds(a: bv32, b: bv32)
    ensures Minus(a, b) == a - b
  {
  }

  lemma PlusBack(a: bv32, b: bv32, d: bv32)
    requires d == a - b
    ensures Plus(b, d) == a
  {
  }

  // ---- Order ----

  lemma BelowOneWay(x: bv32, y: bv32)
    requires Below(x, y)
    ensures !Below(y, x) && x != y
  {
  }

  lemma AppendKeepsOrder(x: bv32, y: bv32, p: bool, q: bool)
    requires Below(x, y) && Below(y, 0x8000_0000)
    ensures Below(Append(x, p), Append(y, q))
  {
    assert x < 0x8000_0000;
    assert (x << 1) | 1 < y << 1;
    assert x << 1 < y << 1;
  }

  lemma AppendBit(x: bv32)
    requires Below(x, 0x8000_0000)
    ensures Below(Append(x, false), Append(x, true))
  {
  }

  lemma {:induction false} FromNatKeepsOrder(m: nat, n: nat)
    requires m < n < WORD
    ensures Below(FromNat(m), FromNat(n))
    decreases n
  {
    hide FromNat, Append, Below;
    var h, k := m / 2, n / 2;
    FromNatUnfold(h);
    FromNatUnfold(k);
    assert m == 2 * h || m == 2 * h + 1;
    assert n == 2 * k || n == 2 * k + 1;
    SmallIsPositive(k);
    if h < k {
      FromNatKeepsOrder(h, k);
      AppendKeepsOrder(FromNat(h), FromNat(k), m % 2 == 1, n % 2 == 1);
    } else {
      AppendBit(FromNat(h));
    }
  }

  lemma SmallIsPositive(n: nat)
    requires n < HALF
    ensures Below(FromNat(n), 0x8000_0000)
  {
    hide FromNat, Value;
    FromNatValue(n);
    SignBit(FromNat(n));
  }

  lemma NotBelowItself(x: bv32)
    ensures !Below(x, x)
  {
  }

  lemma UnsignedLessIsLess(a: bv32, b: bv32)
    ensures Below(a, b) <==> Value(a) < Value(b)
  {
    hide FromNat, Value, Below;
    FromNatOfWord(a);
    FromNatOfWord(b);
    if Value(a) < Value(b) {
      FromNatKeepsOrder(Value(a), Value(b));
    } else if Value(b) < Value(a) {
      FromNatKeepsOrder(Value(b), Value(a));
      BelowOneWay(b, a);
    } else {
      NotBelowItself(a);
    }
  }

  lemma SignedLessBySign(a: bv32, b: bv32)
    ensures Below(a, 0x8000_0000) == Below(b, 0x8000_0000) ==> (SignedLess(a, b) <==> Below(a, b))
    ensures Below(a, 0x8000_0000) && !Below(b, 0x8000_0000) ==> !SignedLess(a, b)
    ensures Below(b, 0x8000_0000) && !Below(a, 0x8000_0000) ==> SignedLess(a, b)
  {
  }

  lemma SignedReading(x: bv32)
    ensures Below(x, 0x8000_0000) <==> Value(x) < HALF
    ensures Signed(x) == if Below(x, 0x8000_0000) then Value(x) else Value(x) - WORD
  {
    hide Value;
    SignBit(x);
  }

  lemma SignedLessIsLess(a: bv32, b: bv32)
    ensures SignedLess(a, b) <==> Signed(a) < Signed(b)
  {
    hide Value, Signed, SignedLess, Below;
    SignedLessBySign(a, b);
    UnsignedLessIsLess(a, b);
    SignedReading(a);
    SignedReading(b);
  }

  // ---- Shifts ----

  /** A shift amount as a number. */
  function Amount(n: bv5): nat { n as int }

  lemma AmountBelow(n: bv5)
    requires n > 0
    ensures Amount(n - 1) == Amount(n) - 1
  {
  }

  lemma AmountZero()
    ensures Amount(0) == 0
  {
  }

  lemma ShrOneMore(x: bv32, n: bv5)
    requires n > 0
    ensures Shr(x, n) == Shr(Shr(x, 1), n - 1)
  {
  }

  lemma ShlOneMore(x: bv32, n: bv5)
    requires n > 0
    ensures Shl(x, n) == Shl(Shl(x, 1), n - 1)
  {
  }

  lemma ShiftNone(x: bv32)
    ensures Shr(x, 0) == x && Shl(x, 0) == x
  {
  }

  lemma DropBit(y: bv32, bit: bool)
    requires y < 0x8000_0000
    ensures Shr(Append(y, bit), 1) == y
  {
  }

  lemma HalfOfWord(x: bv32)
    ensures Value(Shr(x, 1)) == Value(x) / 2
  {
    hide FromNat, Value, Append, Shr;
    var h := Value(x) / 2;
    FromNatOfWord(x);
    FromNatUnfold(h);
    FromNatValue(h);
    SignBit(FromNat(h));
    assert Value(x) == 2 * h || Value(x) == 2 * h + 1;
    DropBit(FromNat(h), Value(x) % 2 == 1);
  }

  /** A logical right shift divides. */
  lemma {:induction false} ShrIsQuotient(x: bv32, n: bv5)
    ensures Value(Shr(x, n)) == Value(x) / Pow2(Amount(n))
    decreases Amount(n)
  {
    hide Value, Shr, Amount;
    AmountZero();
    if n == 0 {
      ShiftNone(x);
    } else {
      AmountBelow(n);
      ShrOneMore(x, n);
      ShrIsQuotient(Shr(x, 1), n - 1);
      HalfOfWord(x);
      QuotientOfQuotient(Value(x), Pow2(Amount(n - 1)));
    }
  }

  lemma TwiceIsSum(x: bv32)
    ensures Shl(x, 1) == Plus(x, x)
  {
  }

  lemma ProductModular(v: nat, p: nat)
    ensures ((v + v) % WORD * p) % WORD == (v * (2 * p)) % WORD
  {
    var k := (v + v) / WORD;
    var r := (v + v) % WORD;
    assert v + v == r + WORD * k;
    calc {
      v * (2 * p);
      (v + v) * p;
      (r + WORD * k) * p;
      r * p + WORD * (k * p);
    }
    ModUnique(v * (2 * p), r * p, k * p);
  }

  /** A left shift multiplies, modulo 2^32. */
  lemma {:induction false} ShlIsProduct(x: bv32, n: bv5)
    ensures Value(Shl(x, n)) == (Value(x) * Pow2(Amount(n))) % WORD
    decreases Amount(n)
  {
    hide Value, Shl, Plus, Amount;
    AmountZero();
    if n == 0 {
      ShiftNone(x);
    } else {
      AmountBelow(n);
      ShlOneMore(x, n);
      ShlIsProduct(Shl(x, 1), n - 1);
      TwiceIsSum(x);
      SumIsModular(x, x);
      ProductModular(Value(x), Pow2(Amount(n - 1)));
    }
  }

  lemma NotIsComplement(x: bv32)
    ensures Value(Not(x)) == WORD - 1 - Value(x)
  {
    hide Value, Plus, Not;
    SumIsModular(x, Not(x));
    AllOnes(x);
    LastValue();
  }

  lemma AllOnes(x: bv32)
    ensures Plus(x, Not(x)) == 0xFFFF_FFFF
  {
  }

  lemma TopBit(x: bv32)
    ensures Below(x, 0x8000_0000) <==> x & 0x8000_0000 == 0
  {
  }

  lemma FloorOfNegative(s: int, p: nat)
    requires p > 0 && s < 0
    ensures s / p == -1 - (-1 - s) / p
  {
    var n: nat := -1 - s;
    DivModExact(n, p);
    var q, r := n / p, n % p;
    assert s == p * (-1 - q) + (p - 1 - r);
    FloorUnique(s, p, -1 - q, p - 1 - r);
  }

  lemma FloorUnique(s: int, p: nat, q: int, r: int)
    requires p > 0 && s == p * q + r && 0 <= r < p
    ensures s / p == q
  {
    var d := s / p - q;
    assert s == p * (s / p) + s % p && 0 <= s % p < p;
    assert p * d == r - s % p;
    AtLeastOnce(p, d);
  }

  lemma AtLeastOnce(p: nat, d: int)
    ensures d >= 1 ==> p * d >= p
    ensures d <= -1 ==> p * -d >= p && p * -d == -(p * d)
  {
  }

  lemma QuotientSmall(v: nat, p: nat)
    requires p > 0
    ensures 0 <= v / p <= v
  {
    DivideRange(v, p);
  }

  /** An arithmetic right shift divides the signed number, rounding down. */
  lemma SraIsFloor(x: bv32, n: bv5)
    ensures Signed(Sra(x, n)) == Signed(x) / Pow2(Amount(n))
  {
    hide Value, Signed, Shr, Sra, Not, Amount, Below;
    var p := Pow2(Amount(n));
    SraByTopBit(x, n);
    TopBit(x);
    SignedReading(x);
    SignedValue(Sra(x, n));
    if Below(x, 0x8000_0000) {
      ShrIsQuotient(x, n);
      QuotientSmall(Value(x), p);
    } else {
      ShrIsQuotient(Not(x), n);
      NotIsComplement(x);
      NotIsComplement(Shr(Not(x), n));
      QuotientSmall(Value(Not(x)), p);
      FloorOfNegative(Signed(x), p);
    }
  }

  // ---- The instructions ----

  /** ADD and SUB. */
  lemma AddSubMean(a: bv32, b: bv32)
    ensures Value(OpResult(0x00, 0, a, b)) == (Value(a) + Value(b)) % WORD
    ensures Value(OpResult(0x20, 0, a, b)) == (Value(a) - Value(b)) % WORD
    ensures Value(ImmResult(0, 0, a, b, 0)) == (Value(a) + Value(b)) % WORD
  {
    hide Value, Plus, Minus;
    SumIsModular(a, b);
    DifferenceIsModular(a, b);
  }

  /** SLT and SLTU, and their immediate forms. */
  lemma SetLessMean(a: bv32, b: bv32)
    ensures OpResult(0, 2, a, b) == ImmResult(2, 0, a, b, 0) == if Signed(a) < Signed(b) then 1 else 0
    ensures OpResult(0, 3, a, b) == ImmResult(3, 0, a, b, 0) == if Value(a) < Value(b) then 1 else 0
  {
    hide Value, Signed, SignedLess;
    SignedLessIsLess(a, b);
    UnsignedLessIsLess(a, b);
  }

  /** SLL, SRL and SRA by the low five bits of the second operand, and their immediate forms. */
  lemma ShiftsMean(a: bv32, b: bv32)
    ensures var n := Pow2(Amount(ShiftAmount(b)));
            && Value(OpResult(0, 1, a, b)) == (Value(a) * n) % WORD
            && Value(OpResult(0, 5, a, b)) == Value(a) / n
            && Signed(OpResult(0x20, 5, a, b)) == Signed(a) / n
    ensures var s := ShiftAmount(b);
            && ImmResult(1, 0, a, 0, s) == OpResult(0, 1, a, b)
            && ImmResult(5, 0, a, 0, s) == OpResult(0, 5, a, b)
            && ImmResult(5, 0x20, a, 0, s) == OpResult(0x20, 5, a, b)
  {
    hide Value, Signed, Shl, Shr, Sra, ShiftAmount, Amount;
    ShlIsProduct(a, ShiftAmount(b));
    ShrIsQuotient(a, ShiftAmount(b));
    SraIsFloor(a, ShiftAmount(b));
  }

  /** Branch conditions. */
  lemma BranchesMean(a: bv32, b: bv32)
    ensures Compare(0, a, b) <==> Value(a) == Value(b)
    ensures Compare(1, a, b) <==> Value(a) != Value(b)
    ensures Compare(4, a, b) <==> Signed(a) < Signed(b)
    ensures Compare(5, a, b) <==> Signed(a) >= Signed(b)
    ensures Compare(6, a, b) <==> Value(a) < Value(b)
    ensures Compare(7, a, b) <==> Value(a) >= Value(b)
  {
    hide Value, Signed, SignedLess;
    SignedLessIsLess(a, b);
    UnsignedLessIsLess(a, b);
    if Value(a) == Value(b) {
      ValueIsInjective(a, b);
    }
  }

  /** AMOMIN, AMOMAX, AMOMINU and AMOMAXU store one of the two operands, and no operand is beyond it. */
  lemma AmoExtremesMean(was: bv32, src: bv32)
    ensures var r := AmoValue(0x10, was, src); r in {was, src} && Signed(r) <= Signed(was) && Signed(r) <= Signed(src)
    ensures var r := AmoValue(0x14, was, src); r in {was, src} && Signed(r) >= Signed(was) && Signed(r) >= Signed(src)
    ensures var r := AmoValue(0x18, was, src); r in {was, src} && Value(r) <= Value(was) && Value(r) <= Value(src)
    ensures var r := AmoValue(0x1C, was, src); r in {was, src} && Value(r) >= Value(was) && Value(r) >= Value(src)
  {
    hide Value, Signed, SignedLess, Below, AmoValue;
    AmoExtremes(was, src);
    AmoUnsignedMin(was, src);
    AmoUnsignedMax(was, src);
    SignedLessIsLess(was, src);
    SignedLessIsLess(src, was);
    UnsignedLessIsLess(was, src);
    UnsignedLessIsLess(src, was);
  }

  lemma AmoExtremes(was: bv32, src: bv32)
    ensures AmoValue(0x10, was, src) == if SignedLess(src, was) then src else was
    ensures AmoValue(0x14, was, src) == if SignedLess(was, src) then src else was
  {
    hide SignedLess, Plus, Xor, And, Or;
  }

  lemma AmoUnsignedMin(was: bv32, src: bv32)
    ensures AmoValue(0x18, was, src) == if Below(src, was) then src else was
  {
    hide SignedLess, Plus, Xor, And, Or;
  }

  lemma AmoUnsignedMax(was: bv32, src: bv32)
    ensures AmoValue(0x1C, was, src) == if Below(was, src) then src else was
  {
    hide SignedLess, Plus, Xor, And, Or;
  }

  /** AND, OR and XOR, and their immediate forms, bit by bit. */
  lemma LogicMeans(a: bv32, b: bv32, k: nat)
    ensures BitAt(OpResult(0, 4, a, b), k) <==> BitAt(a, k) != BitAt(b, k)
    ensures BitAt(OpResult(0, 6, a, b), k) <==> BitAt(a, k) || BitAt(b, k)
    ensures BitAt(OpResult(0, 7, a, b), k) <==> BitAt(a, k) && BitAt(b, k)
    ensures ImmResult(4, 0, a, b, 0) == OpResult(0, 4, a, b)
    ensures ImmResult(6, 0, a, b, 0) == OpResult(0, 6, a, b)
    ensures ImmResult(7, 0, a, b, 0) == OpResult(0, 7, a, b)
  {
    hide Or, And, Xor, BitAt;
    BitwiseBits(a, b, k);
  }

  /** The other atomics: swap and SC.W store the operand, the rest the sum or the bitwise combination. */
  lemma AmoValuesMean(was: bv32, src: bv32, k: nat)
    ensures AmoValue(0x01, was, src) == src && AmoValue(0x03, was, src) == src && AmoValue(0x02, was, src) == was
    ensures Value(AmoValue(0x00, was, src)) == (Value(was) + Value(src)) % WORD
    ensures BitAt(AmoValue(0x04, was, src), k) <==> BitAt(was, k) != BitAt(src, k)
    ensures BitAt(AmoValue(0x08, was, src), k) <==> BitAt(was, k) || BitAt(src, k)
    ensures BitAt(AmoValue(0x0C, was, src), k) <==> BitAt(was, k) && BitAt(src, k)
  {
    AmoForms(was, src);
    hide AmoValue, Or, And, Xor, Plus, BitAt, Value;
    BitwiseBits(was, src, k);
    SumIsModular(was, src);
  }

  lemma AmoForms(was: bv32, src: bv32)
    ensures AmoValue(0x01, was, src) == src && AmoValue(0x03, was, src) == src && AmoValue(0x02, was, src) == was
    ensures AmoValue(0x00, was, src) == Plus(was, src) && AmoValue(0x04, was, src) == Xor(was, src)
    ensures AmoValue(0x08, was, src) == Or(was, src) && AmoValue(0x0C, was, src) == And(was, src)
  {
    hide Or, And, Xor, Plus, SignedLess;
  }
}
