/** Numbers and their digits, and the division facts behind shifts and masks. */
module Numbers {
  type Byte = b: int | 0 <= b < 256

  // ---- Digits, most significant first

  function Pow(base: nat, n: nat): (p: nat)
    requires base > 0
    ensures p > 0
  {
    if n == 0 then 1 else base * Pow(base, n - 1)
  }

  predicate AreDigits(digits: seq<int>, base: nat) {
    forall k | 0 <= k < |digits| :: 0 <= digits[k] < base
  }

  function Value(digits: seq<int>, base: nat): int {
    if digits == [] then 0 else Value(digits[..|digits| - 1], base) * base + digits[|digits| - 1]
  }

  function Digits(value: nat, base: nat, len: nat): (digits: seq<int>)
    requires base > 0
    ensures |digits| == len && AreDigits(digits, base)
    decreases len
  {
    if len == 0 then []
    else
      DivModBounds(value, base);
      var high := Digits(value / base, base, len - 1);
      high + [value % base]
  }

  lemma DivModBounds(value: nat, base: nat)
    requires base > 0
    ensures 0 <= value / base && 0 <= value % base < base
    ensures value == base * (value / base) + value % base
  {
  }

  lemma ValueBounds(digits: seq<int>, base: nat)
    requires base > 0 && AreDigits(digits, base)
    ensures 0 <= Value(digits, base) < Pow(base, |digits|)
  {
    if digits != [] {
      var init := digits[..|digits| - 1];
      ValueBounds(init, base);
      MulMonotone(base, Value(init, base) + 1, Pow(base, |init|));
      assert base * (Value(init, base) + 1) == Value(init, base) * base + base;
      MulNonNegative(Value(init, base), base);
    }
  }

  lemma ValueAppend(digits: seq<int>, digit: int, base: nat)
    ensures Value(digits + [digit], base) == Value(digits, base) * base + digit
  {
    assert (digits + [digit])[..|digits|] == digits;
  }

  /** Reading digits back: the digits of a number are the only digits with that value. */
  lemma {:induction false} DigitsOfValue(digits: seq<int>, base: nat)
    requires base > 0 && AreDigits(digits, base)
    ensures Value(digits, base) >= 0 && Digits(Value(digits, base), base, |digits|) == digits
  {
    ValueBounds(digits, base);
    if digits != [] {
      var init, last := digits[..|digits| - 1], digits[|digits| - 1];
      ValueBounds(init, base);
      DigitsOfValue(init, base);
      DivModOf(Value(init, base), base, last);
      assert init + [last] == digits;
    }
  }

  lemma DivModOf(high: nat, base: nat, low: nat)
    requires low < base
    ensures (high * base + low) / base == high && (high * base + low) % base == low
  {
    var whole := high * base + low;
    DivModBounds(whole, base);
    var apart := whole / base - high;
    assert base * apart == low - whole % base;
    if apart != 0 {
      ProductApart(base, apart);
    }
  }

  lemma ProductApart(base: nat, d: int)
    requires base > 0 && d != 0
    ensures base * d >= base || base * d <= 0 - base
  {
    if d > 0 {
      MulNonNegative(base, d - 1);
      assert base * d == base * (d - 1) + base;
    } else {
      MulNonNegative(base, -d - 1);
      assert base * d == -(base * (-d - 1)) - base;
    }
  }

  lemma MulNonNegative(a: nat, b: nat)
    ensures a * b >= 0
  {
  }

  lemma MulCommutes(a: int, b: int)
    ensures a * b == b * a
  {
  }

  lemma DivBelow(value: nat, base: nat, bound: nat)
    requires base > 0 && value < base * bound
    ensures value / base < bound
  {
    DivModBounds(value, base);
    var q := value / base;
    assert base * (bound - q) > 0;
  }

  lemma {:induction false} ValueOfDigits(value: nat, base: nat, len: nat)
    requires base > 0 && value < Pow(base, len)
    ensures Value(Digits(value, base, len), base) == value
    decreases len
  {
    if len > 0 {
      DivModBounds(value, base);
      DivBelow(value, base, Pow(base, len - 1));
      var q, r := value / base, value % base;
      ValueOfDigits(q, base, len - 1);
      ValueAppend(Digits(q, base, len - 1), r, base);
      MulCommutes(q, base);
    }
  }

  lemma SameValueSameDigits(a: seq<int>, b: seq<int>, base: nat)
    requires base > 0 && AreDigits(a, base) && AreDigits(b, base)
    requires |a| == |b| && Value(a, base) == Value(b, base)
    ensures a == b
  {
    DigitsOfValue(a, base);
    DigitsOfValue(b, base);
  }

  // ---- Little-endian integers

  function LittleEndian(value: nat, len: nat): (bytes: seq<Byte>)
    ensures |bytes| == len
  {
    if len == 0 then []
    else
      DivModBounds(value, 256);
      [value % 256] + LittleEndian(value / 256, len - 1)
  }

  function FromLittleEndian(bytes: seq<Byte>): nat {
    if bytes == [] then 0 else bytes[0] + 256 * FromLittleEndian(bytes[1..])
  }

  lemma {:induction false} LittleEndianRoundTrip(value: nat, len: nat)
    requires value < Pow(256, len)
    ensures FromLittleEndian(LittleEndian(value, len)) == value
    decreases len
  {
    if len > 0 {
      DivModBounds(value, 256);
      DivBelow(value, 256, Pow(256, len - 1));
      LittleEndianRoundTrip(value / 256, len - 1);
      assert LittleEndian(value, len)[1..] == LittleEndian(value / 256, len - 1);
    }
  }

  lemma {:induction false} FromLittleEndianRoundTrip(bytes: seq<Byte>)
    ensures FromLittleEndian(bytes) < Pow(256, |bytes|)
    ensures LittleEndian(FromLittleEndian(bytes), |bytes|) == bytes
  {
    if bytes != [] {
      FromLittleEndianRoundTrip(bytes[1..]);
      assert bytes == [bytes[0]] + bytes[1..];
    }
  }

  // ---- Division

  lemma MulPositive(a: nat, b: nat)
    requires a > 0 && b > 0
    ensures a * b > 0
  {
  }

  lemma DivShift(r: nat, a: nat, q: nat)
    requires a > 0
    ensures (a * q + r) / a == q + r / a
  {
    DivModBounds(r, a);
    assert a * q + r == (q + r / a) * a + r % a;
    DivModOf(q + r / a, a, r % a);
  }

  lemma ModShift(r: nat, b: nat, q: nat)
    requires b > 0
    ensures (b * q + r) % b == r % b
  {
    DivModBounds(r, b);
    assert b * q + r == (q + r / b) * b + r % b;
    DivModOf(q + r / b, b, r % b);
  }

  lemma PowAdd(base: nat, a: nat, b: nat)
    requires base > 0
    ensures Pow(base, a + b) == Pow(base, a) * Pow(base, b)
  {
    if a > 0 {
      PowAdd(base, a - 1, b);
      assert a + b - 1 == a - 1 + b;
      assert base * (Pow(base, a - 1) * Pow(base, b)) == base * Pow(base, a - 1) * Pow(base, b);
    }
  }

  // ---- Shifts by powers of two

  function Pow2(n: nat): (p: nat)
    ensures p > 0
  {
    Pow(2, n)
  }

  /** Shifting a value right by less is shifting it right by more and keeping the next field. */
  lemma ShiftSplit(value: nat, n: nat, width: nat)
    ensures value / Pow2(n) == value / Pow2(n + width) * Pow2(width) + value / Pow2(n) % Pow2(width)
  {
    PowAdd(2, n, width);
    DivDiv(value, Pow2(n), Pow2(width));
    DivModBounds(value / Pow2(n), Pow2(width));
  }

  lemma DivDiv(value: nat, a: nat, b: nat)
    requires a > 0 && b > 0
    ensures a * b > 0 && value / (a * b) == value / a / b
  {
    MulPositive(a, b);
    DivModBounds(value, a);
    var q, r := value / a, value % a;
    DivModBounds(q, b);
    var high, rest := q / b, q % b;
    MulMonotone(a, rest + 1, b);
    assert a * (rest + 1) == a * rest + a;
    calc {
      value;
      a * (b * high + rest) + r;
      a * (b * high) + a * rest + r;
      high * (a * b) + (a * rest + r);
    }
    DivModOf(high, a * b, a * rest + r);
  }

  lemma MulMonotone(a: nat, x: nat, y: nat)
    requires x <= y
    ensures a * x <= a * y
  {
    MulNonNegative(a, y - x);
    assert a * y == a * x + a * (y - x);
  }

  /** Shifting in `width` fresh bits and shifting them out again changes nothing above. */
  lemma ShiftInOut(value: nat, n: nat, width: nat, low: nat)
    requires low < Pow2(width)
    ensures (value * Pow2(width) + low) / Pow2(n + width) == value / Pow2(n)
  {
    var shifted := value * Pow2(width) + low;
    PowAdd(2, width, n);
    assert n + width == width + n;
    DivDiv(shifted, Pow2(width), Pow2(n));
    DivModOf(value, Pow2(width), low);
  }
}
