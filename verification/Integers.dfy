/** Integer division and bit operations on integers of any size. */
module Integers {

  function Abs(x: int): nat { if x < 0 then -x else x }

  function Pow2(n: nat): (p: int)
    ensures p >= 1
  {
    if n == 0 then 1 else 2 * Pow2(n - 1)
  }

  // ---------------------------------------------------------------- division

  /** Division that rounds toward zero: the remainder has the dividend's sign. */
  predicate Truncated(a: int, b: int, q: int, m: int) {
    a == q * b + m && Abs(m) < Abs(b) && (m != 0 ==> (m < 0 <==> a < 0))
  }

  /** Division that rounds toward negative infinity: the remainder has the divisor's sign. */
  predicate Floored(a: int, b: int, q: int, m: int) {
    a == q * b + m && (if b > 0 then 0 <= m < b else b < m <= 0)
  }

  lemma AbsProduct(q: int, b: int)
    ensures Abs(q * b) == Abs(q) * Abs(b)
  {
    if q < 0 && b < 0 { assert q * b == (0 - q) * (0 - b); }
    else if q < 0 { assert (0 - q) * b == 0 - q * b; }
    else if b < 0 { assert q * (0 - b) == 0 - q * b; }
  }

  lemma NoMultipleBetween(b: int, k: int)
    ensures k != 0 ==> Abs(k * b) >= Abs(b)
  {
    AbsProduct(k, b);
    if k != 0 { Grows(Abs(k), Abs(b)); }
  }

  lemma TruncatedIsUnique(a: int, b: int, q: int, m: int, q': int, m': int)
    requires Truncated(a, b, q, m) && Truncated(a, b, q', m')
    ensures q == q' && m == m'
  {
    assert (q - q') * b == q * b - q' * b == m' - m;
    NoMultipleBetween(b, q - q');
  }

  lemma FlooredIsUnique(a: int, b: int, q: int, m: int, q': int, m': int)
    requires Floored(a, b, q, m) && Floored(a, b, q', m')
    ensures q == q' && m == m'
  {
    assert (q - q') * b == q * b - q' * b == m' - m;
    NoMultipleBetween(b, q - q');
  }

  /** The quotient toward zero is never larger in magnitude than the true one, and within one of it. */
  lemma TruncatedIsTowardZero(a: int, b: int, q: int, m: int)
    requires Truncated(a, b, q, m)
    ensures Abs(q) * Abs(b) <= Abs(a) < (Abs(q) + 1) * Abs(b)
    ensures q != 0 ==> (q < 0 <==> (a < 0) != (b < 0))
  {
    AbsProduct(q, b);
    assert (Abs(q) + 1) * Abs(b) == Abs(q) * Abs(b) + Abs(b);
    if q != 0 {
      assert Abs(q) * Abs(b) >= Abs(b) by { Grows(Abs(q), Abs(b)); }
      assert q * b != 0;
      SignOfProduct(q, b);
    }
  }

  lemma Grows(k: nat, b: nat)
    requires k >= 1
    ensures k * b >= b
  {
    assert k * b == b + (k - 1) * b;
  }

  lemma SignOfProduct(q: int, b: int)
    requires q != 0 && b != 0
    ensures q * b < 0 <==> (q < 0) != (b < 0)
  {
    if q > 0 && b > 0 {} else if q < 0 && b < 0 { assert q * b == (-q) * (-b); }
    else if q < 0 { assert (-q) * b == -(q * b) > 0; } else { assert q * (-b) == -(q * b) > 0; }
  }

  const WORD_LIMIT := 0x4000_0000_0000_0000

  predicate FitsDivisorWord(b: int) { -WORD_LIMIT < b < WORD_LIMIT }

  lemma HalfOf(x: nat, i: nat)
    ensures x / Pow2(i) == 2 * (x / Pow2(i + 1)) + (x / Pow2(i)) % 2
  {
    var p := Pow2(i);
    var h := x / (2 * p);
    var rest := x % (2 * p);
    assert x == (2 * h) * p + rest by { assert (2 * p) * h == (2 * h) * p; }
    if rest < p {
      Quotient(x, p, 2 * h, rest);
    } else {
      assert x == (2 * h + 1) * p + (rest - p) by { assert (2 * h + 1) * p == (2 * h) * p + p; }
      Quotient(x, p, 2 * h + 1, rest - p);
    }
  }

  lemma Quotient(x: int, p: int, q: int, m: int)
    requires x == q * p + m && 0 <= m < p
    ensures x / p == q && x % p == m
  {
    assert x == (x / p) * p + x % p;
    assert (x / p - q) * p == (x / p) * p - q * p == m - x % p;
    NoMultipleBetween(p, x / p - q);
  }

  /** Two shifts to the right are one by their sum. */
  lemma Shifted(x: nat, i: nat, j: nat)
    ensures (x / Pow2(i)) / Pow2(j) == x / Pow2(i + j)
  {
    PowersAdd(i, j);
    TwoQuotients(x, Pow2(i), Pow2(j));
  }

  lemma TwoQuotients(x: int, p: int, w: int)
    requires p >= 1 && w >= 1
    ensures w * p >= 1 && (x / p) / w == x / (w * p)
  {
    var t := x / p;
    var h, e := t / w, t % w;
    assert x == t * p + x % p;
    assert t == h * w + e;
    assert (h * w + e) * p == h * (w * p) + e * p;
    MulMono(e, w - 1, p);
    assert (w - 1) * p == w * p - p;
    MulMono(1, w, p);
    Quotient(x, w * p, h, e * p + x % p);
  }

  lemma MulMono(a: int, b: int, p: nat)
    requires a <= b
    ensures a * p <= b * p
  {
  }

  lemma {:induction false} PowersAdd(i: nat, j: nat)
    ensures Pow2(i + j) == Pow2(j) * Pow2(i)
    decreases j
  {
    if j > 0 {
      PowersAdd(i, j - 1);
      assert i + j - 1 == i + (j - 1);
    }
  }

  lemma Powers()
    ensures Pow2(16) == 0x1_0000 && Pow2(32) == 0x1_0000_0000 && Pow2(63) == 0x8000_0000_0000_0000
  {
    assert Pow2(4) == 2 * Pow2(3) == 4 * Pow2(2) == 16;
    PowersAdd(4, 4);
    PowersAdd(8, 8);
    PowersAdd(16, 16);
    PowersAdd(32, 32);
    assert Pow2(64) == 2 * Pow2(63);
  }

  /** The number of bits looked at: a multiple of 32 that leaves nothing of `x` beyond it. */
  method BitLength(x: nat) returns (bits: int)
    ensures bits >= 0 && x < Pow2(bits)
  {
    bits := 0;
    var t := x;
    Powers();
    while t > 0
      invariant bits >= 0 && t == x / Pow2(bits)
      decreases t
    {
      Shifted(x, bits, 32);
      t := t / Pow2(32);
      bits := bits + 32;
    }
    LessThanDivisor(x, Pow2(bits));
  }

  lemma LessThanDivisor(x: nat, p: int)
    requires p >= 1 && x / p == 0
    ensures x < p
  {
    assert x == (x / p) * p + x % p;
  }

  /** Binary long division on the magnitudes, one bit of the dividend at a time from the top. */
  method LongDivide(x: nat, y: nat) returns (q: nat, r: nat)
    requires y > 0
    ensures x == q * y + r && r < y
  {
    var bits := BitLength(x);
    q, r := 0, 0;
    var i := bits - 1;
    Quotient(x, Pow2(bits), 0, x);
    while i >= 0
      invariant -1 <= i < bits
      invariant r < y && q * y + r == x / Pow2(i + 1)
    {
      var bit := (x / Pow2(i)) % 2;
      HalfOf(x, i);
      assert (2 * q) * y == 2 * (q * y);
      r := 2 * r + bit;
      q := 2 * q;
      if r >= y {
        assert (q + 1) * y == q * y + y;
        r := r - y;
        q := q + 1;
      }
      i := i - 1;
    }
  }

  /** The integers' own division, toward zero, which divides by small divisors. */
  function WordQuotient(a: int, b: int): int
    requires b != 0
  {
    if (a < 0) != (b < 0) then -(Abs(a) / Abs(b)) else Abs(a) / Abs(b)
  }

  function WordRemainder(a: int, b: int): int
    requires b != 0
  {
    if a < 0 then -(Abs(a) % Abs(b)) else Abs(a) % Abs(b)
  }

  lemma SignedQuotient(a: int, b: int, q: nat, r: nat)
    requires b != 0 && Abs(a) == q * Abs(b) + r && r < Abs(b)
    ensures Truncated(a, b, if (a < 0) != (b < 0) then 0 - q else q, if a < 0 then 0 - r else r)
  {
    assert (0 - q) * b == 0 - q * b == q * (0 - b);
  }

  lemma WordDivides(a: int, b: int)
    requires b != 0
    ensures Truncated(a, b, WordQuotient(a, b), WordRemainder(a, b))
  {
    var n: nat, d: nat := Abs(a), Abs(b);
    var q, r := DivisionSplits(n, d);
    SignedQuotient(a, b, q, r);
    hide Truncated;
  }

  lemma DivisionSplits(n: nat, d: nat) returns (q: nat, r: nat)
    requires d > 0
    ensures q == n / d && r == n % d && n == q * d + r && r < d
  {
    q, r := n / d, n % d;
    assert q * d == d * q;
  }

  method TruncDivMod(a: int, b: int) returns (quot: int, rem: int)
    requires b != 0
    ensures Truncated(a, b, quot, rem)
  {
    hide Truncated, WordQuotient, WordRemainder;
    if FitsDivisorWord(b) {
      WordDivides(a, b);
      return WordQuotient(a, b), WordRemainder(a, b);
    }
    var negA, negB := a < 0, b < 0;
    var q, r := LongDivide(if negA then -a else a, if negB then -b else b);
    SignedQuotient(a, b, q, r);
    quot, rem := q, r;
    if negA != negB { quot := -quot; }
    if negA { rem := -rem; }
  }

  method FloorDivMod(a: int, b: int) returns (quot: int, rem: int)
    requires b != 0
    ensures Floored(a, b, quot, rem)
  {
    quot, rem := TruncDivMod(a, b);
    if rem != 0 && (rem < 0) != (b < 0) {
      assert (quot - 1) * b == quot * b - b;
      quot := quot - 1;
      rem := rem + b;
    }
  }

  datatype Answer = Value(value: int) | ZeroDivide | Undefined

  /** `//` and `\\` on integers. */
  method IntDiv(a: int, b: int) returns (q: Answer)
    ensures b == 0 <==> q == ZeroDivide
    ensures b != 0 ==> q.Value? && Floored(a, b, q.value, a - q.value * b)
  {
    if b == 0 { return ZeroDivide; }
    var quot, rem := FloorDivMod(a, b);
    q := Value(quot);
  }

  method IntMod(a: int, b: int) returns (m: Answer)
    ensures b == 0 <==> m == ZeroDivide
    ensures b != 0 ==> m.Value? && exists q :: Floored(a, b, q, m.value)
  {
    if b == 0 { return ZeroDivide; }
    var quot, rem := FloorDivMod(a, b);
    m := Value(rem);
  }

  /** Both roundings agree on the remainder up to one divisor, and exactly when no correction is due. */
  lemma RoundingsDiffer(a: int, b: int, q: int, m: int, q': int, m': int)
    requires Truncated(a, b, q, m) && Floored(a, b, q', m')
    ensures (q == q' && m == m') <==> (m == 0 || (m < 0 <==> b < 0))
    ensures q' == q || (q' == q - 1 && m' == m + b)
  {
    if m == 0 || (m < 0 <==> b < 0) {
      FlooredIsUnique(a, b, q, m, q', m');
    } else {
      assert (q - 1) * b == q * b - b;
      FlooredIsUnique(a, b, q - 1, m + b, q', m');
    }
  }

  // ---------------------------------------------------------------- greatest common divisor

  predicate Divides(d: int, x: int) { d != 0 && x % d == 0 }

  ghost predicate IsGcd(g: int, a: int, b: int) {
    g > 0 && Divides(g, a) && Divides(g, b) && forall d | d > 0 && Divides(d, a) && Divides(d, b) :: Divides(d, g)
  }

  lemma DividesSum(d: int, x: int, y: int, k: int)
    requires d > 0 && Divides(d, x) && Divides(d, y)
    ensures Divides(d, x + k * y)
  {
    var p, q := x / d, y / d;
    assert x == p * d && y == q * d;
    assert x + k * y == (p + k * q) * d + 0 by { assert k * (q * d) == (k * q) * d; assert (p + k * q) * d == p * d + (k * q) * d; }
    Quotient(x + k * y, d, p + k * q, 0);
  }

  lemma SameDivisors(x: int, y: int, q: int, t: int, d: int)
    requires x == q * y + t && d > 0
    ensures Divides(d, x) && Divides(d, y) <==> Divides(d, y) && Divides(d, t)
  {
    if Divides(d, x) && Divides(d, y) {
      assert t == x + (-q) * y by { assert (-q) * y == -(q * y); }
      DividesSum(d, x, y, -q);
    }
    if Divides(d, y) && Divides(d, t) { DividesSum(d, t, y, q); }
  }

  lemma DividesAbs(d: int, x: int)
    requires d > 0
    ensures Divides(d, x) <==> Divides(d, Abs(x))
  {
    if x < 0 {
      assert x == (x / d) * d + x % d;
      assert -x == (-x / d) * d + (-x) % d;
      if x % d == 0 { assert -x == (-(x / d)) * d + 0 by { assert (-(x / d)) * d == -((x / d) * d); } Quotient(-x, d, -(x / d), 0); }
      if (-x) % d == 0 { assert x == (-(-x / d)) * d + 0 by { assert (-(-x / d)) * d == -((-x / d) * d); } Quotient(x, d, -(-x / d), 0); }
    }
  }

  /** Euclid's algorithm on the magnitudes. */
  method Gcd(a: int, b: int) returns (g: Answer)
    ensures g == Undefined <==> a == 0 && b == 0
    ensures !(a == 0 && b == 0) ==> g.Value? && IsGcd(g.value, a, b)
  {
    var x, y := Abs(a), Abs(b);
    if x == 0 && y == 0 { return Undefined; }
    while y != 0
      invariant x >= 0 && y >= 0 && (x != 0 || y != 0)
      invariant forall d | d > 0 :: Divides(d, x) && Divides(d, y) <==> Divides(d, Abs(a)) && Divides(d, Abs(b))
      decreases y
    {
      var q, t := TruncDivMod(x, y);
      forall d | d > 0 ensures Divides(d, y) && Divides(d, t) <==> Divides(d, Abs(a)) && Divides(d, Abs(b)) {
        SameDivisors(x, y, q, t, d);
      }
      x, y := y, t;
    }
    assert Divides(x, x) && Divides(x, 0) by { Quotient(x, x, 1, 0); }
    forall d | d > 0 ensures Divides(d, x) <==> Divides(d, a) && Divides(d, b) {
      DividesAbs(d, a);
      DividesAbs(d, b);
    }
    g := Value(x);
  }

  method Lcm(a: int, b: int) returns (l: nat)
    ensures a == 0 || b == 0 ==> l == 0
    ensures a != 0 && b != 0 ==> exists g: int :: IsGcd(g, a, b) && l * g == Abs(a * b)
  {
    if a == 0 || b == 0 { return 0; }
    var g := Gcd(a, b);
    var quot, rem := TruncDivMod(Abs(a * b), g.value);
    ProductDivides(g.value, a, b);
    ghost var whole := Abs(a * b) / g.value;
    assert Abs(a * b) == whole * g.value + 0;
    TruncatedIsUnique(Abs(a * b), g.value, quot, rem, whole, 0);
    l := quot;
  }

  lemma ProductDivides(g: int, a: int, b: int)
    requires g > 0 && Divides(g, a)
    ensures Divides(g, Abs(a * b)) && Abs(a * b) / g >= 0
  {
    DividesSum(g, 0, a, b);
    assert a * b == 0 + b * a;
    DividesAbs(g, a * b);
  }

  // ---------------------------------------------------------------- bits

  datatype BitOp = And | Or | Xor {
    predicate On(p: bool, q: bool) {
      match this
      case And => p && q
      case Or => p || q
      case Xor => p != q
    }
  }

  /** Bit `k` of an integer in two's complement without end. */
  predicate Bit(x: int, k: nat)
    decreases k
  {
    if k == 0 then x % 2 == 1 else Bit(x / 2, k - 1)
  }

  /** Bit `k` is the lowest one of the floored quotient by two to the power `k`, whatever the sign. */
  lemma {:induction false} BitIsOfQuotient(x: int, k: nat)
    ensures Bit(x, k) <==> (x / Pow2(k)) % 2 == 1
    decreases k
  {
    if k > 0 {
      BitIsOfQuotient(x / 2, k - 1);
      TwoQuotients(x, 2, Pow2(k - 1));
    }
  }

  function OneIf(b: bool): int { if b then 1 else 0 }

  predicate IsSign(x: int) { x == 0 || x == -1 }

  /** The machine's operation on words of `n` bits and a sign. */
  function WordOp(op: BitOp, x: int, y: int, n: nat): int
    decreases n
  {
    if n == 0 then -OneIf(op.On(x < 0, y < 0))
    else OneIf(op.On(x % 2 == 1, y % 2 == 1)) + 2 * WordOp(op, x / 2, y / 2, n - 1)
  }

  predicate IsWord(x: int, n: nat) { -Pow2(n) <= x < Pow2(n) }

  lemma {:induction false} SignBits(x: int, k: nat)
    requires IsSign(x)
    ensures Bit(x, k) <==> x == -1
    decreases k
  {
    if k > 0 { SignBits(x / 2, k - 1); }
  }

  lemma {:induction false} WordOpBits(op: BitOp, x: int, y: int, n: nat, k: nat)
    requires IsWord(x, n) && IsWord(y, n)
    ensures Bit(WordOp(op, x, y, n), k) <==> op.On(Bit(x, k), Bit(y, k))
    decreases n, k
  {
    if n == 0 {
      SignBits(x, k);
      SignBits(y, k);
      SignBits(WordOp(op, x, y, n), k);
    } else if k > 0 {
      assert WordOp(op, x, y, n) / 2 == WordOp(op, x / 2, y / 2, n - 1);
      WordOpBits(op, x / 2, y / 2, n - 1, k - 1);
    }
  }

  lemma {:induction false} WordOpRange(op: BitOp, x: int, y: int, n: nat)
    requires 0 <= x < Pow2(n) && 0 <= y < Pow2(n)
    ensures 0 <= WordOp(op, x, y, n) < Pow2(n)
    decreases n
  {
    if n > 0 { WordOpRange(op, x / 2, y / 2, n - 1); }
  }

  /** Two integers with the same bits are the same integer. */
  lemma {:induction false} BitsDetermine(x: int, y: int)
    requires forall k: nat :: Bit(x, k) <==> Bit(y, k)
    ensures x == y
    decreases Abs(x) + Abs(y)
  {
    assert Bit(x, 0) <==> Bit(y, 0);
    if IsSign(x) && IsSign(y) {
    } else {
      forall k: nat ensures Bit(x / 2, k) <==> Bit(y / 2, k) {
        assert Bit(x, k + 1) <==> Bit(y, k + 1);
      }
      BitsDetermine(x / 2, y / 2);
    }
  }

  /** An integer's low `n` bits are its remainder by a power of two, the others its floored quotient. */
  lemma {:induction false} SplitBits(low: int, high: int, n: nat, k: nat)
    requires 0 <= low < Pow2(n)
    ensures Bit(low + Pow2(n) * high, k) <==> if k < n then Bit(low, k) else Bit(high, k - n)
    decreases n
  {
    var x := low + Pow2(n) * high;
    if n > 0 {
      var p := Pow2(n - 1);
      assert Pow2(n) * high == 2 * (p * high);
      assert x / 2 == low / 2 + p * high && x % 2 == low % 2;
      if k > 0 { SplitBits(low / 2, high, n - 1, k - 1); }
    }
  }

  const BASE := 65536

  /** One 16-bit digit of the result. */
  function DigitOf(op: BitOp, u: int, v: int): int { WordOp(op, u, v, 63) % BASE }

  /** What the digit loop adds up to. */
  function Wide(op: BitOp, x: int, y: int): int
    decreases Abs(x) + Abs(y)
  {
    if IsSign(x) && IsSign(y) then WordOp(op, x, y, 63)
    else DigitOf(op, x % BASE, y % BASE) + BASE * Wide(op, x / BASE, y / BASE)
  }

  lemma SmallWord(x: int)
    requires -BASE <= x < BASE
    ensures IsWord(x, 63)
  {
    Powers();
  }

  lemma DigitBits(op: BitOp, x: int, y: int, k: nat)
    requires 0 <= x < BASE && 0 <= y < BASE
    ensures var d := DigitOf(op, x, y); 0 <= d < BASE && (k < 16 ==> (Bit(d, k) <==> op.On(Bit(x, k), Bit(y, k))))
  {
    hide WordOp;
    var w := WordOp(op, x, y, 63);
    SmallWord(x);
    SmallWord(y);
    WordOpBits(op, x, y, 63, k);
    Powers();
    assert w == w % BASE + BASE * (w / BASE);
    SplitBits(w % BASE, w / BASE, 16, k);
  }

  lemma DigitSplit(x: int, k: nat)
    ensures Bit(x, k) <==> if k < 16 then Bit(x % BASE, k) else Bit(x / BASE, k - 16)
  {
    Powers();
    SplitBits(x % BASE, x / BASE, 16, k);
    assert x == x % BASE + BASE * (x / BASE);
  }

  lemma WideDigit(op: BitOp, x: int, y: int)
    requires !(IsSign(x) && IsSign(y))
    ensures Wide(op, x, y) % BASE == DigitOf(op, x % BASE, y % BASE)
    ensures Wide(op, x, y) / BASE == Wide(op, x / BASE, y / BASE)
  {
    hide WordOp;
  }

  /** The digit loop's sum is the operation applied to every one of the endless bits. */
  lemma {:induction false} WideBits(op: BitOp, x: int, y: int, k: nat)
    ensures Bit(Wide(op, x, y), k) <==> op.On(Bit(x, k), Bit(y, k))
    decreases Abs(x) + Abs(y)
  {
    hide Bit, WordOp, BitOp.On;
    if IsSign(x) && IsSign(y) {
      SmallWord(x);
      SmallWord(y);
      WordOpBits(op, x, y, 63, k);
    } else {
      WideDigit(op, x, y);
      DigitSplit(Wide(op, x, y), k);
      DigitSplit(x, k);
      DigitSplit(y, k);
      hide Wide;
      if k < 16 { DigitBits(op, x % BASE, y % BASE, k); } else { WideBits(op, x / BASE, y / BASE, k - 16); }
    }
  }

  lemma SignWordOp(op: BitOp, x: int, y: int)
    requires IsSign(x) && IsSign(y)
    ensures WordOp(op, x, y, 63) == -OneIf(op.On(x == -1, y == -1))
  {
    var s := -OneIf(op.On(x == -1, y == -1));
    SmallWord(x);
    SmallWord(y);
    forall k: nat ensures Bit(WordOp(op, x, y, 63), k) <==> Bit(s, k) {
      WordOpBits(op, x, y, 63, k);
      SignBits(x, k);
      SignBits(y, k);
      SignBits(s, k);
    }
    BitsDetermine(WordOp(op, x, y, 63), s);
  }

  lemma FlooredByBase(x: int, q: int, m: int)
    requires Floored(x, BASE, q, m)
    ensures q == x / BASE && m == x % BASE
  {
  }

  lemma Shrinks(x: int)
    ensures Abs(x / BASE) <= Abs(x) && (!IsSign(x) ==> Abs(x / BASE) < Abs(x))
  {
  }

  lemma WideSign(op: BitOp, x: int, y: int)
    requires IsSign(x) && IsSign(y)
    ensures Wide(op, x, y) == WordOp(op, x, y, 63)
  {
    hide WordOp;
  }

  lemma OneDigit(op: BitOp, x: int, y: int)
    requires !(IsSign(x) && IsSign(y))
    ensures Wide(op, x, y) == DigitOf(op, x % BASE, y % BASE) + BASE * Wide(op, x / BASE, y / BASE)
  {
    hide WordOp;
  }

  lemma WideStep(op: BitOp, x: int, y: int, weight: int)
    requires !(IsSign(x) && IsSign(y))
    ensures weight * Wide(op, x, y)
         == DigitOf(op, x % BASE, y % BASE) * weight + weight * BASE * Wide(op, x / BASE, y / BASE)
  {
    OneDigit(op, x, y);
    hide *;
    Weighed(weight, DigitOf(op, x % BASE, y % BASE), Wide(op, x / BASE, y / BASE), Wide(op, x, y));
  }

  lemma Weighed(weight: int, digit: int, rest: int, all: int)
    requires all == digit + BASE * rest
    ensures weight * all == digit * weight + weight * BASE * rest
  {
    assert weight * all == weight * digit + weight * (BASE * rest);
  }

  /** Bit operation on integers of any size, 16 bits at a time. */
  method WideBitOp(a: int, b: int, op: BitOp) returns (result: int)
    ensures forall k: nat :: Bit(result, k) <==> op.On(Bit(a, k), Bit(b, k))
  {
    hide WordOp, Wide, Bit, Floored, BitOp.On;
    var x, y, weight := a, b, 1;
    result := 0;
    while !(IsSign(x) && IsSign(y))
      invariant result + weight * Wide(op, x, y) == Wide(op, a, b)
      decreases Abs(x) + Abs(y)
    {
      var qx, rx := FloorDivMod(x, BASE);
      var qy, ry := FloorDivMod(y, BASE);
      FlooredByBase(x, qx, rx);
      FlooredByBase(y, qy, ry);
      var digit := DigitOf(op, rx, ry);
      WideStep(op, x, y, weight);
      Shrinks(x);
      Shrinks(y);
      result := result + digit * weight;
      x, y, weight := qx, qy, weight * BASE;
    }
    var sign := WordOp(op, x, y, 63);
    SignWordOp(op, x, y);
    WideSign(op, x, y);
    assert weight * -1 == 0 - weight;
    result := if sign == -1 then result - weight else result;
    forall k: nat ensures Bit(result, k) <==> op.On(Bit(a, k), Bit(b, k)) { WideBits(op, a, b, k); }
  }

  /** The small integers' fast operation and the digit loop answer the same integer. */
  lemma WordAndWideAgree(op: BitOp, x: int, y: int, n: nat)
    requires IsWord(x, n) && IsWord(y, n)
    ensures WordOp(op, x, y, n) == Wide(op, x, y)
  {
    forall k: nat ensures Bit(WordOp(op, x, y, n), k) <==> Bit(Wide(op, x, y), k) {
      WordOpBits(op, x, y, n, k);
      WideBits(op, x, y, k);
    }
    BitsDetermine(WordOp(op, x, y, n), Wide(op, x, y));
  }

  /** Carries and sums: what both have and what either has make up the two together. */
  lemma {:induction false} AndOrConserve(x: int, y: int)
    ensures Wide(And, x, y) + Wide(Or, x, y) == x + y
    ensures Wide(Xor, x, y) == Wide(Or, x, y) - Wide(And, x, y)
    decreases Abs(x) + Abs(y)
  {
    hide WordOp;
    if IsSign(x) && IsSign(y) {
      SmallWord(x);
      SmallWord(y);
      DigitSums(x, y, 63);
    } else {
      AndOrConserve(x / BASE, y / BASE);
      var u, v := x % BASE, y % BASE;
      SmallWord(u);
      SmallWord(v);
      DigitSums(u, v, 63);
      DigitRange(And, u, v);
      DigitRange(Or, u, v);
      DigitRange(Xor, u, v);
      OneDigit(And, x, y);
      OneDigit(Or, x, y);
      OneDigit(Xor, x, y);
      hide Wide;
    }
  }

  lemma DigitRange(op: BitOp, u: int, v: int)
    requires 0 <= u < BASE && 0 <= v < BASE
    ensures DigitOf(op, u, v) == WordOp(op, u, v, 63)
  {
    hide WordOp;
    Powers();
    WordOpRange(op, u, v, 16);
    SmallWord(u);
    SmallWord(v);
    WidthIsIdle(op, u, v, 16, 63);
  }

  lemma WidthIsIdle(op: BitOp, u: int, v: int, n: nat, m: nat)
    requires IsWord(u, n) && IsWord(v, n) && IsWord(u, m) && IsWord(v, m)
    ensures WordOp(op, u, v, n) == WordOp(op, u, v, m)
  {
    hide WordOp;
    forall k: nat ensures Bit(WordOp(op, u, v, n), k) <==> Bit(WordOp(op, u, v, m), k) {
      WordOpBits(op, u, v, n, k);
      WordOpBits(op, u, v, m, k);
    }
    BitsDetermine(WordOp(op, u, v, n), WordOp(op, u, v, m));
  }

  lemma {:induction false} DigitSums(u: int, v: int, n: nat)
    requires IsWord(u, n) && IsWord(v, n)
    ensures WordOp(And, u, v, n) + WordOp(Or, u, v, n) == u + v
    ensures WordOp(Xor, u, v, n) == WordOp(Or, u, v, n) - WordOp(And, u, v, n)
    decreases n
  {
    if n > 0 { DigitSums(u / 2, v / 2, n - 1); }
  }
}
