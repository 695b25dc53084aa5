/**
 * RV32M is exact, as sections 7.1 and 7.2 of the RISC-V Unprivileged ISA, version
 * 20191213, ask: the product halves form the true 64-bit product, and quotient
 * and remainder reconstruct the dividend, zero divisors and overflow included.
 */
module Multiply {
  import opened Bits
  import opened Machine

  const HALF: int := 0x8000_0000

  // ---- Words and integers ----

  lemma SignedValue(x: bv32)
    ensures Signed(x) == if Value(x) < HALF then Value(x) else Value(x) - WORD
    ensures -HALF <= Signed(x) < HALF
  {
    hide Value;
    SignBit(x);
  }

  lemma WrappedValue(n: int)
    ensures Value(Wrapped(n)) == n % WORD
  {
    hide Value, FromNat;
    FromNatValue(n % WORD);
  }

  lemma SignedWrapped(n: int)
    requires -HALF <= n < HALF
    ensures Signed(Wrapped(n)) == n
  {
    hide Value, Wrapped, Signed;
    WrappedValue(n);
    SignedValue(Wrapped(n));
  }

  lemma ModUnique(x: int, y: int, k: int)
    requires x == y + WORD * k
    ensures x % WORD == y % WORD
  {
  }

  lemma ModSum(a: int, b: int)
    ensures (a % WORD + b) % WORD == (a + b) % WORD
  {
    ModUnique(a + b, a % WORD + b, a / WORD);
  }

  /** How many times 2^32 separates the two readings of a word. */
  function Wraps(x: bv32): int { if x < 0x8000_0000 then 0 else 1 }

  lemma SignedWraps(x: bv32)
    ensures Signed(x) == Value(x) - WORD * Wraps(x)
  {
  }

  lemma ProductShift(a: int, b: int, ka: int, kb: int)
    ensures (a - WORD * ka) * (b - WORD * kb) == a * b + WORD * (WORD * ka * kb - ka * b - kb * a)
  {
    calc {
      (a - WORD * ka) * (b - WORD * kb);
      a * (b - WORD * kb) - WORD * ka * (b - WORD * kb);
      a * b - a * (WORD * kb) - (WORD * ka * b - WORD * ka * (WORD * kb));
      a * b + WORD * (WORD * ka * kb - ka * b - kb * a);
    }
  }

  lemma ProductBound(x: int, y: int, u: int, v: int)
    requires 0 <= u && 0 <= v && -u <= x <= u && -v <= y <= v
    ensures -(u * v) <= x * y <= u * v
  {
    AbsProduct(if x < 0 then -x else x, if y < 0 then -y else y, u, v);
    assert x * y == (if x < 0 then -x else x) * (if y < 0 then -y else y) ||
           x * y == -((if x < 0 then -x else x) * (if y < 0 then -y else y));
  }

  lemma AbsProduct(x: nat, y: nat, u: nat, v: nat)
    requires x <= u && y <= v
    ensures 0 <= x * y <= u * v
  {
    assert x * y <= u * y <= u * v;
  }

  // ---- Multiplication ----

  /** The two halves of a product, the high one read as signed. */
  lemma Halves(p: int, low: bv32, high: bv32)
    requires Value(low) == p % WORD && high == Wrapped(p / WORD)
    requires -HALF <= p / WORD < HALF
    ensures WORD * Signed(high) + Value(low) == p
  {
    hide Value, Wrapped, Signed;
    SignedWrapped(p / WORD);
  }

  lemma MulIsLow(a: bv32, b: bv32, p: int, k: int)
    requires p == Value(a) * Value(b) + WORD * k
    ensures Value(MulDiv(0, a, b)) == p % WORD
  {
    hide Value, Wrapped, Signed, DivideWords, RemainderWords;
    WrappedValue(Value(a) * Value(b));
    ModUnique(p, Value(a) * Value(b), k);
  }

  /** MUL and MULH are the low and high words of the signed product, which fits an `i64`. */
  lemma MulhIsExact(a: bv32, b: bv32)
    ensures WORD * Signed(MulDiv(1, a, b)) + Value(MulDiv(0, a, b)) == Signed(a) * Signed(b)
    ensures -0x4000_0000_0000_0000 <= Signed(a) * Signed(b) <= 0x4000_0000_0000_0000
  {
    hide Value, MulDiv, Signed, Wrapped, Wraps;
    var p := Signed(a) * Signed(b);
    SignedValue(a);
    SignedValue(b);
    ProductBound(Signed(a), Signed(b), HALF, HALF);
    SignedWraps(a);
    SignedWraps(b);
    ProductShift(Value(a), Value(b), Wraps(a), Wraps(b));
    MulIsLow(a, b, p, WORD * Wraps(a) * Wraps(b) - Wraps(a) * Value(b) - Wraps(b) * Value(a));
    MulhIs(a, b);
    Halves(p, MulDiv(0, a, b), MulDiv(1, a, b));
  }

  lemma MulhIs(a: bv32, b: bv32)
    ensures MulDiv(1, a, b) == Wrapped(Signed(a) * Signed(b) / WORD)
    ensures MulDiv(2, a, b) == Wrapped(Signed(a) * Value(b) / WORD)
    ensures MulDiv(3, a, b) == Wrapped(Value(a) * Value(b) / WORD)
  {
    hide Value, Wrapped, Signed, DivideWords, RemainderWords;
  }

  /** MUL and MULHSU are the words of the mixed product. */
  lemma MulhsuIsExact(a: bv32, b: bv32)
    ensures WORD * Signed(MulDiv(2, a, b)) + Value(MulDiv(0, a, b)) == Signed(a) * Value(b)
    ensures -0x8000_0000_0000_0000 <= Signed(a) * Value(b) < 0x8000_0000_0000_0000
  {
    hide Value, MulDiv, Signed, Wrapped, Wraps;
    var p := Signed(a) * Value(b);
    SignedValue(a);
    ProductBoundMixed(Signed(a), Value(b));
    SignedWraps(a);
    ProductShift(Value(a), Value(b), Wraps(a), 0);
    MulIsLow(a, b, p, WORD * Wraps(a) * 0 - Wraps(a) * Value(b) - 0 * Value(a));
    MulhIs(a, b);
    Halves(p, MulDiv(0, a, b), MulDiv(2, a, b));
  }

  lemma ProductBoundMixed(x: int, y: int)
    requires -HALF <= x < HALF && 0 <= y < WORD
    ensures -HALF * WORD <= x * y < HALF * WORD
  {
    if x >= 0 {
      AbsProduct(x, y, HALF - 1, WORD);
    } else {
      AbsProduct(-x, y, HALF, WORD);
      assert x * y == -((-x) * y);
    }
  }

  /** MUL and MULHU are the words of the unsigned product. */
  lemma MulhuIsExact(a: bv32, b: bv32)
    ensures WORD * Value(MulDiv(3, a, b)) + Value(MulDiv(0, a, b)) == Value(a) * Value(b)
  {
    hide Value, MulDiv, Signed, Wrapped, Wraps;
    var p := Value(a) * Value(b);
    AbsProduct(Value(a), Value(b), WORD - 1, WORD - 1);
    MulIsLow(a, b, p, 0);
    MulhIs(a, b);
    WrappedValue(p / WORD);
    HighWordFits(p);
  }

  lemma HighWordFits(p: int)
    requires 0 <= p <= (WORD - 1) * (WORD - 1)
    ensures (p / WORD) % WORD == p / WORD
  {
  }

  // ---- Division ----

  /** Truncating division: the remainder is smaller than the divisor and has the sign of the dividend. */
  lemma TruncDivProperties(x: int, y: int)
    requires y != 0
    ensures var r := x - TruncDiv(x, y) * y;
            && (if y > 0 then -y < r < y else y < r < -y)
            && (x >= 0 ==> r >= 0) && (x <= 0 ==> r <= 0)
  {
    var n: int, z: int := Abs(x), Abs(y);
    var q: int := n / z;
    DivMod(n, z);
    NegatedProducts(q, z);
  }

  lemma DivMod(n: int, z: int)
    requires n >= 0 && z > 0
    ensures n == (n / z) * z + n % z && 0 <= n % z < z && n / z >= 0
  {
  }

  lemma NegatedProducts(q: int, z: int)
    ensures (-q) * z == -(q * z) && q * -z == -(q * z) && (-q) * -z == q * z
  {
  }

  /** Words of a quotient and a remainder put the dividend together again, modulo 2^32. */
  lemma Reconstruct(x: int, y: int, q: int, r: int, yw: int, k: int)
    requires x == q * y + r && yw == y + WORD * k
    ensures ((q % WORD) * yw + r % WORD) % WORD == x % WORD
  {
    var kq, kr := q / WORD, r / WORD;
    var qw, rw := q % WORD, r % WORD;
    assert q == qw + WORD * kq && r == rw + WORD * kr;
    calc {
      qw * yw + rw;
      (q - WORD * kq) * (y - WORD * (-k)) + r - WORD * kr;
      { ProductShift(q, y, kq, -k); }
      q * y + WORD * (WORD * kq * (-k) - kq * y - (-k) * q) + r - WORD * kr;
      x + WORD * (WORD * kq * (-k) - kq * y - (-k) * q - kr);
    }
    ModUnique(qw * yw + rw, x, WORD * kq * (-k) - kq * y - (-k) * q - kr);
  }

  /** DIV with REM, and DIVU with REMU, for a divisor that is not zero. */
  lemma DivideReconstructs(x: int, y: int, yw: int, k: int)
    requires y != 0 && yw == y + WORD * k
    ensures (Value(DivideWords(x, y)) * yw + Value(RemainderWords(x, y))) % WORD == x % WORD
  {
    hide Value, Wrapped;
    var q := TruncDiv(x, y);
    var r := x - q * y;
    WrappedValue(q);
    WrappedValue(r);
    Reconstruct(x, y, q, r, yw, k);
  }

  /** Quotient times divisor plus remainder is the dividend, modulo 2^32, for every pair of operands. */
  lemma DivisionReconstructs(a: bv32, b: bv32)
    ensures (Value(MulDiv(4, a, b)) * Value(b) + Value(MulDiv(6, a, b))) % WORD == Value(a)
    ensures (Value(MulDiv(5, a, b)) * Value(b) + Value(MulDiv(7, a, b))) % WORD == Value(a)
  {
    hide Value, MulDiv, DivideWords, RemainderWords, Signed, Wraps;
    DivisionForms(a, b);
    ZeroValue();
    if b != 0 {
      SignedWraps(a);
      SignedWraps(b);
      NonZero(b);
      DivideReconstructs(Signed(a), Signed(b), Value(b), Wraps(b));
      ModUnique(Value(a), Signed(a), Wraps(a));
      DivideReconstructs(Value(a), Value(b), Value(b), 0);
    }
  }

  lemma NonZero(b: bv32)
    requires b != 0
    ensures Value(b) != 0 && Signed(b) != 0
  {
    hide Value, Signed;
    SignedValue(b);
    ZeroValue();
    if Value(b) == 0 {
      ValueIsInjective(b, 0);
    }
  }

  lemma ZeroValue()
    ensures Value(0) == 0
  {
  }

  /** Division by zero gives all ones and leaves the dividend as remainder; any other division is the integers' own. */
  lemma DivisionForms(a: bv32, b: bv32)
    ensures b == 0 ==> MulDiv(4, a, b) == 0xFFFF_FFFF && MulDiv(5, a, b) == 0xFFFF_FFFF
    ensures b == 0 ==> MulDiv(6, a, b) == a && MulDiv(7, a, b) == a
    ensures b != 0 ==> MulDiv(4, a, b) == DivideWords(Signed(a), Signed(b))
    ensures b != 0 ==> MulDiv(6, a, b) == RemainderWords(Signed(a), Signed(b))
    ensures b != 0 ==> MulDiv(5, a, b) == DivideWords(Value(a), Value(b))
    ensures b != 0 ==> MulDiv(7, a, b) == RemainderWords(Value(a), Value(b))
  {
    hide Value, DivideWords, RemainderWords, Signed, Wrapped;
  }

  /**
   * Signed remainders: smaller than the divisor, with the sign of the dividend; exact
   * unless the quotient overflows.
   */
  lemma RemIsExact(a: bv32, b: bv32)
    requires b != 0
    ensures var r := Signed(MulDiv(6, a, b));
            && (Signed(b) > 0 ==> -Signed(b) < r < Signed(b))
            && (Signed(b) < 0 ==> Signed(b) < r < -Signed(b))
            && (Signed(a) >= 0 ==> r >= 0) && (Signed(a) <= 0 ==> r <= 0)
    ensures !(Signed(a) == -HALF && Signed(b) == -1) ==>
              Signed(MulDiv(4, a, b)) * Signed(b) + Signed(MulDiv(6, a, b)) == Signed(a)
    ensures Signed(a) == -HALF && Signed(b) == -1 ==> Signed(MulDiv(4, a, b)) == -HALF && Signed(MulDiv(6, a, b)) == 0
  {
    hide Value, MulDiv, Signed, Wrapped, TruncDiv;
    NonZero(b);
    SignedValue(a);
    SignedValue(b);
    DivisionForms(a, b);
    var x, y := Signed(a), Signed(b);
    var q := TruncDiv(x, y);
    TruncDivProperties(x, y);
    SignedWrapped(x - q * y);
    QuotientRange(x, y);
    if x == -HALF && y == -1 {
      OverflowWraps();
    } else {
      SignedWrapped(q);
    }
  }

  /** Unsigned division is exact. */
  lemma RemuIsExact(a: bv32, b: bv32)
    requires b != 0
    ensures Value(MulDiv(5, a, b)) * Value(b) + Value(MulDiv(7, a, b)) == Value(a)
    ensures Value(MulDiv(7, a, b)) < Value(b)
  {
    hide Value, MulDiv, Signed, Wrapped, TruncDiv;
    NonZero(b);
    DivisionForms(a, b);
    var x, y := Value(a), Value(b);
    TruncDivProperties(x, y);
    UnsignedQuotient(x, y);
    WrappedValue(TruncDiv(x, y));
    WrappedValue(x - TruncDiv(x, y) * y);
  }

  lemma UnsignedQuotient(x: int, y: int)
    requires x >= 0 && y > 0
    ensures 0 <= TruncDiv(x, y) <= x
  {
    DivideRange(x, y);
  }

  lemma QuotientRange(x: int, y: int)
    requires -HALF <= x < HALF && -HALF <= y < HALF && y != 0
    ensures x == -HALF && y == -1 ==> TruncDiv(x, y) == HALF
    ensures !(x == -HALF && y == -1) ==> -HALF <= TruncDiv(x, y) < HALF
  {
    DivideRange(Abs(x), Abs(y));
  }

  lemma DivideRange(n: int, z: int)
    requires n >= 0 && z > 0
    ensures 0 <= n / z <= n
    ensures z == 1 ==> n / z == n
    ensures z > 1 ==> 2 * (n / z) <= n
  {
    DivMod(n, z);
    var q := n / z;
    if z > 1 {
      AtLeastDouble(q, z);
    }
  }

  lemma AtLeastDouble(q: int, z: int)
    requires q >= 0 && z >= 2
    ensures q * z >= 2 * q
  {
    assert q * z == 2 * q + q * (z - 2);
  }

  lemma OverflowWraps()
    ensures Signed(Wrapped(HALF)) == -HALF
  {
    hide Value, Wrapped, Signed;
    WrappedValue(HALF);
    SignedValue(Wrapped(HALF));
  }
}
