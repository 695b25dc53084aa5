/**
 * Machine words as bit vectors: the shifts, sign extensions and comparisons that
 * the emulator gets from Rust's integer types, and the link between a 32-bit
 * word and the natural number it stands for.
 */
module Bits {
  const WORD: int := 0x1_0000_0000

  /** An address or count of Rust type `u32`. */
  type U32 = x: int | 0 <= x < WORD witness 0

  // Word operations have names so that a proof can treat them as black boxes.

  /** `a.wrapping_add(b)`. */
  function Plus(a: bv32, b: bv32): bv32 { a + b }

  /** `a.wrapping_sub(b)`. */
  function Minus(a: bv32, b: bv32): bv32 { a - b }

  function And(a: bv32, b: bv32): bv32 { a & b }
  function Or(a: bv32, b: bv32): bv32 { a | b }
  function Xor(a: bv32, b: bv32): bv32 { a ^ b }
  function Not(x: bv32): bv32 { !x }
  function Shl(x: bv32, n: bv5): bv32 { x << n }
  function Shr(x: bv32, n: bv5): bv32 { x >> n }

  /** `(x as i32) >> n` reinterpreted as `u32`. */
  function Sra(x: bv32, n: bv5): bv32 {
    if x & 0x8000_0000 == 0 then Shr(x, n) else Not(Shr(Not(x), n))
  }

  lemma SraByTopBit(x: bv32, n: bv5)
    ensures x & 0x8000_0000 == 0 ==> Sra(x, n) == Shr(x, n)
    ensures x & 0x8000_0000 != 0 ==> Sra(x, n) == Not(Shr(Not(x), n))
  {
    hide Shr, Not;
  }

  /** `(x as i16) >> n` reinterpreted as `u16`. */
  function Sra16(x: bv16, n: bv4): bv16 {
    if x & 0x8000 == 0 then x >> n else !(!x >> n)
  }

  /** `x as u32`. */
  function ZeroExtend8(x: bv8): bv32 { x as bv32 }
  function ZeroExtend16(x: bv16): bv32 { x as bv32 }

  /** `x as i8 as i32 as u32`. */
  function SignExtend8(x: bv8): bv32 {
    if x & 0x80 == 0 then x as bv32 else 0xFFFF_FF00 | (x as bv32)
  }

  /** `x as i16 as i32 as u32`. */
  function SignExtend16(x: bv16): bv32 {
    if x & 0x8000 == 0 then x as bv32 else 0xFFFF_0000 | (x as bv32)
  }

  /** `a < b` on `u32`. */
  predicate Below(a: bv32, b: bv32) { a < b }

  /** `(a as i32) < (b as i32)`. */
  predicate SignedLess(a: bv32, b: bv32) {
    (a ^ 0x8000_0000) < (b ^ 0x8000_0000)
  }

  /** The integer a word denotes when read as `u32`. */
  function Value(x: bv32): U32 { x as int }

  /** The integer a word denotes when read as `i32`. */
  function Signed(x: bv32): int {
    if x < 0x8000_0000 then Value(x) else Value(x) - WORD
  }

  /** Little-endian composition, `u32::from_le_bytes`. */
  function Word(b0: bv8, b1: bv8, b2: bv8, b3: bv8): bv32 {
    (b0 as bv32) | ((b1 as bv32) << 8) | ((b2 as bv32) << 16) | ((b3 as bv32) << 24)
  }

  function Half(b0: bv8, b1: bv8): bv16 {
    (b0 as bv16) | ((b1 as bv16) << 8)
  }

  /** Byte `k` of `x.to_le_bytes()`. */
  function Byte(x: bv32, k: bv2): bv8 {
    ((x >> ((k as bv5) << 3)) & 0xFF) as bv8
  }

  function Byte16(x: bv16, k: bv1): bv8 {
    ((x >> ((k as bv4) << 3)) & 0xFF) as bv8
  }

  function LowByte(x: bv32): bv8 { (x & 0xFF) as bv8 }

  function LowHalf(x: bv32): bv16 { (x & 0xFFFF) as bv16 }

  /** A 64-bit pattern from its two words, low word first. */
  function Pair(low: bv32, high: bv32): bv64 {
    ((high as bv64) << 32) | (low as bv64)
  }

  function LowWord(x: bv64): bv32 { (x & 0xFFFF_FFFF) as bv32 }

  function HighWord(x: bv64): bv32 { (x >> 32) as bv32 }

  /** The word that denotes `n` modulo 2^32, built bit by bit: Rust's `n as u32`. */
  function FromNat(n: nat): bv32 {
    if n == 0 then 0 else Append(FromNat(n / 2), n % 2 == 1)
  }

  /** `x` with one more bit on the right. */
  function Append(x: bv32, bit: bool): bv32 {
    if bit then (x << 1) | 1 else x << 1
  }

  lemma {:induction false} FromNatUnfold(h: nat)
    ensures FromNat(2 * h) == Append(FromNat(h), false)
    ensures FromNat(2 * h + 1) == Append(FromNat(h), true)
  {
    hide Append;
    assert (2 * h) / 2 == h && (2 * h) % 2 == 0;
    assert (2 * h + 1) / 2 == h && (2 * h + 1) % 2 == 1;
    if h == 0 {
      AppendToZero();
    }
  }

  lemma AppendToZero()
    ensures Append(0, false) == 0
  {
  }

  /** `x` denotes `n`: a name for the conversion that keeps it out of bit-level proofs. */
  predicate Denotes(x: bv32, n: int) { x as int == n }

  /** Below 2^32 the word denotes the number itself. */
  lemma {:induction false} FromNatValue(n: nat)
    requires n < WORD
    ensures Value(FromNat(n)) == n
  {
    hide FromNat;
    FromNatDenotes(n);
  }

  lemma {:induction false} FromNatDenotes(n: nat)
    requires n < WORD
    ensures Denotes(FromNat(n), n)
  {
    hide Denotes, Append;
    if n == 0 {
      ShiftDenotes(0, 0);
    } else {
      var h := n / 2;
      FromNatDenotes(h);
      AppendDenotes(FromNat(h), h);
    }
  }

  lemma AppendDenotes(x: bv32, n: nat)
    requires Denotes(x, n) && n < 0x8000_0000
    ensures Denotes(Append(x, false), 2 * n)
    ensures Denotes(Append(x, true), 2 * n + 1)
  {
    hide Denotes;
    ShiftDenotes(x, n);
  }

  lemma ShiftDenotes(x: bv32, n: nat)
    requires Denotes(x, n) && n < 0x8000_0000
    ensures Denotes(x << 1, 2 * n)
    ensures Denotes((x << 1) | 1, 2 * n + 1)
  {
    assert x < 0x8000_0000;
  }

  /** Different words denote different numbers. */
  lemma ValueIsInjective(x: bv32, y: bv32)
    requires Value(x) == Value(y)
    ensures x == y
  {
    assert (x as int) as bv32 == x && (y as int) as bv32 == y;
  }

  /** Every word is the image of the number it denotes. */
  lemma FromNatOfWord(x: bv32)
    ensures FromNat(Value(x)) == x
  {
    hide FromNat, Value;
    FromNatValue(Value(x));
    ValueIsInjective(FromNat(Value(x)), x);
  }

  lemma FourIsFour()
    ensures Value(4) == 4
  {
  }

  lemma SignBit(x: bv32)
    ensures x < 0x8000_0000 <==> Value(x) < 0x8000_0000
  {
    if x < 0x8000_0000 {
      SmallWord(x);
    } else {
      LargeWord(x);
    }
  }

  lemma SmallWord(x: bv32)
    requires x < 0x8000_0000
    ensures Value(x) < 0x8000_0000
  {
    hide Value;
    var y := x as bv31;
    assert x == y as bv32;
    Widened(y);
  }

  lemma Widened(y: bv31)
    ensures Value(y as bv32) == y as int
  {
    assert (y as bv32) as int == y as int;
  }

  lemma LargeWord(x: bv32)
    requires x >= 0x8000_0000
    ensures x as int >= 0x8000_0000
  {
  }

  /** Wrapping increment on words is increment modulo 2^32 on numbers. */
  lemma {:induction false} FromNatSucc(n: nat)
    ensures FromNat(n + 1) == FromNat(n) + 1
  {
    hide FromNat;
    FromNatNext(n);
  }

  function Succ(x: bv32): bv32 { x + 1 }

  lemma {:induction false} FromNatNext(n: nat)
    ensures FromNat(n + 1) == Succ(FromNat(n))
  {
    hide FromNat, Succ, Append;
    var h := n / 2;
    FromNatUnfold(h);
    SuccOfAppend(FromNat(h));
    if n % 2 == 0 {
      assert n == 2 * h;
    } else {
      assert n == 2 * h + 1 && n + 1 == 2 * (h + 1);
      FromNatUnfold(h + 1);
      FromNatNext(h);
    }
  }

  lemma SuccOfAppend(x: bv32)
    ensures Succ(Append(x, false)) == Append(x, true)
    ensures Succ(Append(x, true)) == Append(Succ(x), false)
  {
  }

  /** Wrapping addition on words is addition on numbers. */
  lemma {:induction false} FromNatPlus(m: nat, n: nat)
    ensures FromNat(m + n) == Plus(FromNat(m), FromNat(n))
    decreases n
  {
    hide FromNat, Plus;
    if n == 0 {
      PlusZero(FromNat(m));
      FromNatZero();
    } else {
      FromNatPlus(m, n - 1);
      FromNatNext(m + n - 1);
      FromNatNext(n - 1);
      SuccOfPlus(FromNat(m), FromNat(n - 1));
    }
  }

  lemma FromNatZero()
    ensures FromNat(0) == 0
  {
  }

  lemma PlusZero(x: bv32)
    ensures Plus(x, 0) == x
  {
  }

  lemma SuccOfPlus(x: bv32, y: bv32)
    ensures Succ(Plus(x, y)) == Plus(x, Succ(y))
  {
    hide Succ, Plus;
    SuccOfSum(x, y);
    PlusUnfolds(x, y);
    SuccUnfolds(x, y);
  }

  lemma SuccOfSum(x: bv32, y: bv32)
    ensures Succ(x + y) == Plus(x, y + 1)
  {
  }

  lemma PlusUnfolds(x: bv32, y: bv32)
    ensures Succ(Plus(x, y)) == Succ(x + y)
  {
    hide Succ;
  }

  lemma SuccUnfolds(x: bv32, y: bv32)
    ensures Plus(x, Succ(y)) == Plus(x, y + 1)
  {
    hide Plus;
  }

  function Pow2(k: nat): (p: nat)
    ensures p > 0
  {
    if k == 0 then 1 else 2 * Pow2(k - 1)
  }

  /** The largest multiple of `p` that is at most `n`. */
  function RoundDown(n: nat, p: nat): nat
    requires p > 0
  {
    n / p * p
  }

  /** Clearing the low `k` bits rounds down to a multiple of 2^k. */
  lemma {:induction false} ClearLowBits(n: nat, k: nat, p: nat)
    requires p == Pow2(k)
    ensures Clear(FromNat(n), FromNat(p - 1)) == FromNat(RoundDown(n, p))
    decreases k
  {
    hide FromNat, Clear, Append;
    if k == 0 {
      FromNatZero();
      ClearNothing(FromNat(n));
    } else {
      var h, q := n / 2, Pow2(k - 1);
      ClearLowBits(h, k - 1, q);
      ClearOneMore(n, h, q);
    }
  }

  lemma {:induction false} ClearOneMore(n: nat, h: nat, q: nat)
    requires q > 0 && h == n / 2
    requires Clear(FromNat(h), FromNat(q - 1)) == FromNat(RoundDown(h, q))
    ensures Clear(FromNat(n), FromNat(2 * q - 1)) == FromNat(RoundDown(n, 2 * q))
  {
    hide FromNat, Clear, Append, RoundDown;
    FromNatUnfold(h);
    FromNatUnfold(q - 1);
    FromNatUnfold(RoundDown(h, q));
    ClearAppend(FromNat(h), FromNat(q - 1));
    HalveQuotient(n, q);
    assert n == 2 * h || n == 2 * h + 1;
    assert 2 * q - 1 == 2 * (q - 1) + 1;
  }

  /** `x & !y`. */
  function Clear(x: bv32, y: bv32): bv32 { x & !y }

  lemma ClearNothing(x: bv32)
    ensures Clear(x, 0) == x
  {
  }

  lemma ClearAppend(x: bv32, y: bv32)
    ensures Clear(Append(x, false), Append(y, true)) == Append(Clear(x, y), false)
    ensures Clear(Append(x, true), Append(y, true)) == Append(Clear(x, y), false)
  {
    assert (x << 1) & !((y << 1) | 1) == (x & !y) << 1;
    assert ((x << 1) | 1) & !((y << 1) | 1) == (x & !y) << 1;
  }

  lemma HalveQuotient(n: nat, p: nat)
    requires p > 0
    ensures RoundDown(n, 2 * p) == 2 * RoundDown(n / 2, p)
  {
    QuotientOfQuotient(n, p);
  }

  lemma QuotientOfQuotient(n: nat, p: nat)
    requires p > 0
    ensures n / (2 * p) == n / 2 / p
  {
    var q := n / 2 / p;
    var r := n / 2 - q * p;
    DivModExact(n / 2, p);
    assert n == 2 * p * q + (2 * r + n % 2);
    assert 0 <= 2 * r + n % 2 < 2 * p;
    DivUnique(n, 2 * p, q, 2 * r + n % 2);
  }

  lemma DivModExact(n: nat, p: nat)
    requires p > 0
    ensures n == n / p * p + n % p && 0 <= n % p < p
  {
  }

  lemma DivUnique(n: nat, d: nat, q: nat, r: nat)
    requires d > 0 && n == d * q + r && r < d
    ensures n / d == q
  {
    DivModExact(n, d);
    var q', r' := n / d, n % d;
    if q' > q {
      Multiples(d, q, q' - q - 1);
      assert false;
    } else if q' < q {
      Multiples(d, q', q - q' - 1);
      assert false;
    }
  }

  lemma Multiples(d: nat, a: nat, e: nat)
    ensures (a + 1 + e) * d == a * d + d + e * d && e * d >= 0
  {
  }

  // ---- Bits of a word ----

  function Halve(x: bv32): bv32 { x >> 1 }
  predicate IsOdd(x: bv32) { x & 1 == 1 }

  /** Bit `k` of `x` is set; a word has none from bit 32 on. */
  predicate BitAt(x: bv32, k: nat) {
    if k == 0 then IsOdd(x) else BitAt(Halve(x), k - 1)
  }

  /** The bitwise operations, bit by bit. */
  lemma {:induction false} BitwiseBits(a: bv32, b: bv32, k: nat)
    ensures BitAt(Or(a, b), k) <==> BitAt(a, k) || BitAt(b, k)
    ensures BitAt(And(a, b), k) <==> BitAt(a, k) && BitAt(b, k)
    ensures BitAt(Xor(a, b), k) <==> BitAt(a, k) != BitAt(b, k)
    ensures BitAt(And(a, Not(b)), k) <==> BitAt(a, k) && !BitAt(b, k)
    decreases k
  {
    hide Or, And, Xor, Not, Halve, IsOdd;
    if k == 0 {
      LowBits(a, b);
    } else {
      HalveBits(a, b);
      BitwiseBits(Halve(a), Halve(b), k - 1);
    }
  }

  lemma LowBits(a: bv32, b: bv32)
    ensures IsOdd(Or(a, b)) <==> IsOdd(a) || IsOdd(b)
    ensures IsOdd(And(a, b)) <==> IsOdd(a) && IsOdd(b)
    ensures IsOdd(Xor(a, b)) <==> IsOdd(a) != IsOdd(b)
    ensures IsOdd(And(a, Not(b))) <==> IsOdd(a) && !IsOdd(b)
  {
  }

  lemma HalveBits(a: bv32, b: bv32)
    ensures Halve(Or(a, b)) == Or(Halve(a), Halve(b))
    ensures Halve(And(a, b)) == And(Halve(a), Halve(b))
    ensures Halve(Xor(a, b)) == Xor(Halve(a), Halve(b))
    ensures Halve(And(a, Not(b))) == And(Halve(a), Not(Halve(b)))
  {
    hide Or, And, Xor, Not, Halve;
    HalveOr(a, b);
    HalveAnd(a, b);
    HalveXor(a, b);
    HalveAndNot(a, b);
  }

  lemma HalveOr(a: bv32, b: bv32)
    ensures Halve(Or(a, b)) == Or(Halve(a), Halve(b))
  {
  }

  lemma HalveAnd(a: bv32, b: bv32)
    ensures Halve(And(a, b)) == And(Halve(a), Halve(b))
  {
  }

  lemma HalveXor(a: bv32, b: bv32)
    ensures Halve(Xor(a, b)) == Xor(Halve(a), Halve(b))
  {
  }

  lemma HalveAndNot(a: bv32, b: bv32)
    ensures Halve(And(a, Not(b))) == And(Halve(a), Not(Halve(b)))
  {
  }

  /** The bits of a word are those of the number it denotes. */
  lemma {:induction false} BitsOfNat(n: nat, k: nat)
    requires n < WORD
    ensures BitAt(FromNat(n), k) <==> n / Pow2(k) % 2 == 1
    decreases k
  {
    hide FromNat, Append, Halve, IsOdd;
    var h := n / 2;
    FromNatUnfold(h);
    assert n == 2 * h || n == 2 * h + 1;
    SmallWordOf(h);
    HalveAppend(FromNat(h), n % 2 == 1);
    if k == 0 {
    } else {
      BitsOfNat(h, k - 1);
      QuotientOfQuotient(n, Pow2(k - 1));
    }
  }

  lemma SmallWordOf(h: nat)
    requires h < 0x8000_0000
    ensures FromNat(h) < 0x8000_0000
  {
    hide FromNat, Value;
    FromNatValue(h);
    SignBit(FromNat(h));
  }

  lemma HalveAppend(x: bv32, bit: bool)
    requires x < 0x8000_0000
    ensures Halve(Append(x, bit)) == x && (IsOdd(Append(x, bit)) <==> bit)
  {
  }
}
