/** The v2 item padding layer (core/vault-core/src/item.rs:14-75): a length prefix, the plaintext
    and zeros up to a bucket whose size grows with the item.

    `BucketedLen` is a closure operator onto multiples of 256 with few values, so what a
    ciphertext's length says about its content is bounded. */
module Padding {
  import opened Wrappers
  import opened Numbers

  const PAD_BLOCK := 256
  const LEN_PREFIX := 4
  const U32_MAX := 0xFFFF_FFFF

  // ---- The bucket schedule

  /** The position of the highest set bit. */
  function Log2(n: nat): (log: nat)
    requires n > 0
    ensures Pow2(log) <= n < 2 * Pow2(log)
  {
    if n == 1 then 0 else Log2(n / 2) + 1
  }

  function Max(a: nat, b: nat): nat {
    if a >= b then a else b
  }

  function SaturatingSub(a: nat, b: nat): nat {
    if a >= b then a - b else 0
  }

  function NextMultipleOf(n: nat, block: nat): nat
    requires block > 0
  {
    if n % block == 0 then n else n + (block - n % block)
  }

  function Block(total: nat): (block: nat)
    ensures block > 0
  {
    if total <= PAD_BLOCK then PAD_BLOCK
    else Max(PAD_BLOCK, Pow2(SaturatingSub(Log2(total), 4)))
  }

  function BucketedLen(total: nat): nat {
    NextMultipleOf(total, Block(total))
  }

  // ---- Dyadic blocks

  lemma Pow2Step(n: nat)
    ensures Pow2(n + 1) == 2 * Pow2(n)
  {
  }

  lemma Pow2Monotone(a: nat, b: nat)
    requires a <= b
    ensures Pow2(a) <= Pow2(b)
    decreases b
  {
    if a < b {
      Pow2Monotone(a, b - 1);
    }
  }

  lemma Pow2Eight()
    ensures Pow2(8) == 256 && Pow2(4) == 16
  {
  }

  /** The octave of a number is the one power of two pair around it. */
  lemma Log2Unique(n: nat, m: nat)
    requires Pow2(m) <= n < Pow2(m + 1)
    ensures n > 0 && Log2(n) == m
  {
    if Log2(n) < m {
      Pow2Monotone(Log2(n) + 1, m);
    } else if m < Log2(n) {
      Pow2Monotone(m + 1, Log2(n));
    }
  }

  /** The block of the octave from 2^m to 2^(m+1), for m >= 8. */
  function OctaveBlock(m: nat): (block: nat)
    requires m >= 8
    ensures block > 0
  {
    Max(PAD_BLOCK, Pow2(m - 4))
  }

  lemma BlockInOctave(n: nat, m: nat)
    requires m >= 8 && Pow2(m) <= n < Pow2(m + 1)
    ensures Block(n) == OctaveBlock(m)
  {
    Pow2Eight();
    Log2Unique(n, m);
    Pow2Monotone(8, m);
    if n == PAD_BLOCK {
      if m > 8 {
        Pow2Monotone(9, m);
      }
    }
  }

  predicate Divides(a: nat, b: nat)
    requires a > 0
  {
    b % a == 0
  }

  lemma DividesTimes(a: nat, k: nat)
    requires a > 0
    ensures a * k >= 0 && Divides(a, a * k)
  {
    DivModOf(k, a, 0);
    MulNonNegative(a, k);
  }

  lemma Pow2Divides(a: nat, b: nat)
    requires a <= b
    ensures Divides(Pow2(a), Pow2(b))
  {
    PowAdd(2, a, b - a);
    DividesTimes(Pow2(a), Pow2(b - a));
  }

  /** An octave's block divides both of its ends. */
  lemma OctaveEnds(m: nat)
    requires m >= 8
    ensures Divides(OctaveBlock(m), Pow2(m)) && Divides(OctaveBlock(m), Pow2(m + 1))
    ensures Divides(PAD_BLOCK, OctaveBlock(m))
    ensures OctaveBlock(m) == if m <= 12 then Pow2(8) else Pow2(m - 4)
  {
    Pow2Eight();
    if m <= 12 {
      Pow2Monotone(m - 4, 8);
      Pow2Divides(8, m);
      Pow2Divides(8, m + 1);
    } else {
      Pow2Monotone(8, m - 4);
      Pow2Divides(8, m - 4);
      Pow2Divides(m - 4, m);
      Pow2Divides(m - 4, m + 1);
    }
  }

  // ---- Rounding up to a block

  lemma NextMultiple(n: nat, block: nat)
    requires block > 0
    ensures n <= NextMultipleOf(n, block) < n + block && Divides(block, NextMultipleOf(n, block))
  {
    DivModBounds(n, block);
    if n % block != 0 {
      assert NextMultipleOf(n, block) == block * (n / block + 1);
      DividesTimes(block, n / block + 1);
    }
  }

  /** Rounding up gives the least multiple that is not below. */
  lemma LeastMultiple(n: nat, block: nat, bound: nat)
    requires block > 0 && Divides(block, bound) && n <= bound
    ensures NextMultipleOf(n, block) <= bound
  {
    NextMultiple(n, block);
    var next := NextMultipleOf(n, block);
    if bound < next {
      MultiplesApart(bound, next, block);
    }
  }

  lemma MultiplesApart(a: nat, b: nat, block: nat)
    requires block > 0 && Divides(block, a) && Divides(block, b) && a < b
    ensures a + block <= b
  {
    DivModBounds(a, block);
    DivModBounds(b, block);
    var d := b / block - a / block;
    assert block * d == b - a;
    ProductApart(block, d);
  }

  // ---- The schedule as a closure operator

  /** Where a total's bucket lies: at most one block for small totals, within the octave above. */
  lemma BucketInOctave(total: nat, m: nat)
    requires m >= 8 && Pow2(m) <= total <= Pow2(m + 1)
    ensures total <= BucketedLen(total) <= Pow2(m + 1)
    ensures Divides(OctaveBlock(m), BucketedLen(total))
    ensures BucketedLen(total) == NextMultipleOf(total, OctaveBlock(m))
  {
    OctaveEnds(m);
    if total < Pow2(m + 1) {
      BlockInOctave(total, m);
      NextMultiple(total, OctaveBlock(m));
      LeastMultiple(total, OctaveBlock(m), Pow2(m + 1));
    } else {
      Pow2Step(m + 1);
      BlockInOctave(total, m + 1);
      OctaveEnds(m + 1);
    }
  }

  lemma SmallBuckets(total: nat)
    requires total <= PAD_BLOCK
    ensures BucketedLen(total) == if total == 0 then 0 else PAD_BLOCK
  {
  }

  lemma InItsOctave(total: nat)
    requires PAD_BLOCK <= total
    ensures Log2(total) >= 8 && Pow2(Log2(total)) <= total <= Pow2(Log2(total) + 1)
  {
    Pow2Eight();
    if Log2(total) < 8 {
      Pow2Monotone(Log2(total) + 1, 8);
    }
  }

  /** A bucket is a multiple of 256 that holds the total with less than one block, at most a
      sixteenth of the total, to spare. */
  lemma BucketsHold(total: nat)
    ensures total <= BucketedLen(total) && BucketedLen(total) % PAD_BLOCK == 0
    ensures BucketedLen(total) < total + Max(PAD_BLOCK, total / 16)
  {
    if total <= PAD_BLOCK {
      SmallBuckets(total);
    } else {
      var m := Log2(total);
      InItsOctave(total);
      BucketInOctave(total, m);
      OctaveEnds(m);
      NextMultiple(total, OctaveBlock(m));
      DividesThrough(PAD_BLOCK, OctaveBlock(m), BucketedLen(total));
      SixteenthOfOctave(total, m);
    }
  }

  lemma SixteenthOfOctave(total: nat, m: nat)
    requires m >= 8 && Pow2(m) <= total
    ensures OctaveBlock(m) <= Max(PAD_BLOCK, total / 16)
  {
    Pow2Eight();
    PowAdd(2, 4, m - 4);
  }

  lemma DividesThrough(a: nat, b: nat, c: nat)
    requires a > 0 && b > 0 && Divides(a, b) && Divides(b, c)
    ensures Divides(a, c)
  {
    DivModBounds(b, a);
    DivModBounds(c, b);
    assert c == a * (b / a * (c / b)) by {
      assert b == a * (b / a) && c == b * (c / b);
    }
    MulNonNegative(b / a, c / b);
    DividesTimes(a, b / a * (c / b));
  }

  lemma BucketsAreMonotone(a: nat, b: nat)
    requires a <= b
    ensures BucketedLen(a) <= BucketedLen(b)
  {
    BucketsHold(b);
    if a <= PAD_BLOCK {
      SmallBuckets(a);
      if b <= PAD_BLOCK {
        SmallBuckets(b);
      }
    } else {
      var m, n := Log2(a), Log2(b);
      InItsOctave(a);
      InItsOctave(b);
      BucketInOctave(a, m);
      BucketInOctave(b, n);
      if m < n {
        Pow2Monotone(m + 1, n);
      } else if n < m {
        Pow2Monotone(n + 1, m);
      } else {
        LeastMultiple(a, OctaveBlock(m), BucketedLen(b));
      }
    }
  }

  lemma BucketsAreFixed(total: nat)
    ensures BucketedLen(BucketedLen(total)) == BucketedLen(total)
  {
    if total <= PAD_BLOCK {
      SmallBuckets(total);
    } else {
      InItsOctave(total);
      BucketInOctave(total, Log2(total));
      BucketInOctave(BucketedLen(total), Log2(total));
    }
  }

  // ---- How many lengths there are

  /** The lengths that totals above `low` and up to `high` are padded to. */
  ghost function Buckets(low: nat, high: nat): set<nat> {
    set total | low < total <= high :: BucketedLen(total)
  }

  ghost function Grid(base: nat, step: nat, n: nat): set<nat> {
    set k | 1 <= k <= n :: base + step * k
  }

  lemma {:induction false} GridSize(base: nat, step: nat, n: nat)
    ensures |Grid(base, step, n)| <= n
  {
    if n == 0 {
      assert Grid(base, step, n) == {};
    } else {
      GridSize(base, step, n - 1);
      assert Grid(base, step, n) == Grid(base, step, n - 1) + {base + step * n};
    }
  }

  lemma SubsetSize<T>(a: set<T>, b: set<T>)
    requires a <= b
    ensures |a| <= |b|
  {
    assert b == a + (b - a);
  }

  lemma OctaveWidth(m: nat)
    requires m >= 8
    ensures Pow2(m + 1) <= Pow2(m) + 16 * OctaveBlock(m)
  {
    Pow2Eight();
    Pow2Step(m);
    PowAdd(2, 4, m - 4);
  }

  /** The multiples of `step` in the 16 steps above a multiple. */
  lemma MultipleOnGrid(base: nat, next: nat, step: nat)
    requires step > 0 && Divides(step, base) && Divides(step, next)
    requires base < next <= base + 16 * step
    ensures next in Grid(base, step, 16)
  {
    DivModBounds(next, step);
    DivModBounds(base, step);
    var k := next / step - base / step;
    assert next == base + step * k;
    KWithin(step, k);
    assert k as nat <= 16 && next == base + step * k as nat;
  }

  lemma KWithin(step: nat, k: int)
    requires step > 0 && 0 < step * k <= 16 * step
    ensures 1 <= k <= 16
  {
    if k > 16 {
      MulMonotone(step, 17, k);
    }
  }

  lemma OnGrid(total: nat, m: nat)
    requires m >= 8 && Pow2(m) < total <= Pow2(m + 1)
    ensures BucketedLen(total) in Grid(Pow2(m), OctaveBlock(m), 16)
  {
    BucketInOctave(total, m);
    OctaveEnds(m);
    OctaveWidth(m);
    MultipleOnGrid(Pow2(m), BucketedLen(total), OctaveBlock(m));
  }

  /** Every octave's totals share at most sixteen padded lengths. */
  lemma OctaveHasSixteen(m: nat)
    requires m >= 8
    ensures |Buckets(Pow2(m), Pow2(m + 1))| <= 16
  {
    var lengths, grid := Buckets(Pow2(m), Pow2(m + 1)), Grid(Pow2(m), OctaveBlock(m), 16);
    forall len | len in lengths ensures len in grid {
      var total: nat :| Pow2(m) < total <= Pow2(m + 1) && len == BucketedLen(total);
      OnGrid(total, m);
    }
    SubsetSize(lengths, grid);
    GridSize(Pow2(m), OctaveBlock(m), 16);
  }

  /** The number of observable lengths grows with the logarithm of the size. */
  lemma {:induction false} FewLengths(m: nat)
    requires m >= 8
    ensures |Buckets(0, Pow2(m))| <= 1 + 16 * (m - 8)
  {
    if m == 8 {
      Pow2Eight();
      forall len | len in Buckets(0, 256) ensures len == PAD_BLOCK {
        var total: nat :| 0 < total <= 256 && len == BucketedLen(total);
        SmallBuckets(total);
      }
      SubsetSize(Buckets(0, 256), {PAD_BLOCK});
    } else {
      FewLengths(m - 1);
      OctaveHasSixteen(m - 1);
      var below, octave := Buckets(0, Pow2(m - 1)), Buckets(Pow2(m - 1), Pow2(m));
      SubsetSize(Buckets(0, Pow2(m)), below + octave);
      assert |below + octave| <= |below| + |octave|;
    }
  }

  // ---- The padded plaintext

  datatype PadError = TooLarge | ShorterThanPrefix | OverrunsBuffer

  function Zeros(n: nat): seq<Byte> {
    seq(n, _ => 0)
  }

  function Padded(plaintext: seq<Byte>): (padded: seq<Byte>)
    ensures |padded| == BucketedLen(LEN_PREFIX + |plaintext|)
  {
    BucketsHold(LEN_PREFIX + |plaintext|);
    var framed := LittleEndian(|plaintext|, LEN_PREFIX) + plaintext;
    framed + Zeros(BucketedLen(|framed|) - |framed|)
  }

  method PadPlaintext(plaintext: seq<Byte>) returns (padded: Result<seq<Byte>, PadError>)
    ensures padded == if |plaintext| <= U32_MAX then Ok(Padded(plaintext)) else Err(TooLarge)
  {
    if |plaintext| > U32_MAX {
      return Err(TooLarge);
    }
    var paddedLen := BucketedLen(LEN_PREFIX + |plaintext|);
    BucketsHold(LEN_PREFIX + |plaintext|);
    var buf := LittleEndian(|plaintext|, LEN_PREFIX);
    buf := buf + plaintext;
    buf := buf + Zeros(paddedLen - |buf|);
    return Ok(buf);
  }

  function UnpadPlaintext(padded: seq<Byte>): Result<seq<Byte>, PadError> {
    if |padded| < LEN_PREFIX then Err(ShorterThanPrefix)
    else
      var end := LEN_PREFIX + FromLittleEndian(padded[..LEN_PREFIX]);
      if end > |padded| then Err(OverrunsBuffer) else Ok(padded[LEN_PREFIX..end])
  }

  lemma PrefixRange()
    ensures Pow(256, LEN_PREFIX) == U32_MAX + 1
  {
    PowAdd(256, 2, 2);
  }

  lemma PrefixTells(head: seq<Byte>, n: nat)
    ensures FromLittleEndian(head) == n <==> n < Pow(256, |head|) && LittleEndian(n, |head|) == head
  {
    FromLittleEndianRoundTrip(head);
    if n < Pow(256, |head|) && LittleEndian(n, |head|) == head {
      LittleEndianRoundTrip(n, |head|);
    }
  }

  lemma Starts(padded: seq<Byte>, head: seq<Byte>, plaintext: seq<Byte>)
    ensures head + plaintext <= padded <==>
            && |head| + |plaintext| <= |padded| && padded[..|head|] == head
            && padded[|head|..|head| + |plaintext|] == plaintext
  {
    if |head| + |plaintext| <= |padded| {
      var end := |head| + |plaintext|;
      assert padded[..end][..|head|] == padded[..|head|];
      assert padded[..end][|head|..] == padded[|head|..end];
      assert padded[..end] == padded[..|head|] + padded[|head|..end];
    }
  }

  /** Taking out what a length prefix of any width delimits. */
  lemma Delimits(padded: seq<Byte>, plaintext: seq<Byte>, width: nat)
    requires width <= |padded|
    ensures var end := width + FromLittleEndian(padded[..width]);
            (end <= |padded| && padded[width..end] == plaintext) <==>
            |plaintext| < Pow(256, width) && LittleEndian(|plaintext|, width) + plaintext <= padded
  {
    PrefixTells(padded[..width], |plaintext|);
    Starts(padded, LittleEndian(|plaintext|, width), plaintext);
  }

  /** Unpadding reads the prefix and ignores what follows the plaintext, so it inverts padding
      under any bucket schedule, past or future. */
  lemma UnpadsExactly(padded: seq<Byte>, plaintext: seq<Byte>)
    ensures UnpadPlaintext(padded) == Ok(plaintext) <==>
            |plaintext| <= U32_MAX && LittleEndian(|plaintext|, LEN_PREFIX) + plaintext <= padded
  {
    PrefixRange();
    if |padded| >= LEN_PREFIX {
      Delimits(padded, plaintext, LEN_PREFIX);
    }
  }

  lemma PadThenUnpad(plaintext: seq<Byte>)
    requires |plaintext| <= U32_MAX
    ensures UnpadPlaintext(Padded(plaintext)) == Ok(plaintext)
  {
    UnpadsExactly(Padded(plaintext), plaintext);
  }

  /** The padded plaintext, byte by byte. */
  lemma PaddedIs(plaintext: seq<Byte>)
    requires |plaintext| <= U32_MAX
    ensures var padded := Padded(plaintext);
            && |padded| == BucketedLen(4 + |plaintext|)
            && |padded| >= 4 + |plaintext|
            && FromLittleEndian(padded[..4]) == |plaintext|
            && padded[4..4 + |plaintext|] == plaintext
            && forall k | 4 + |plaintext| <= k < |padded| :: padded[k] == 0
  {
    BucketsHold(4 + |plaintext|);
    PrefixRange();
    LittleEndianRoundTrip(|plaintext|, LEN_PREFIX);
    var framed := LittleEndian(|plaintext|, LEN_PREFIX) + plaintext;
    assert framed <= Padded(plaintext);
    assert Padded(plaintext)[..4] == framed[..4] == LittleEndian(|plaintext|, LEN_PREFIX);
    assert Padded(plaintext)[4..4 + |plaintext|] == framed[4..];
  }

  /** Which error a buffer gets that does not unpad. */
  lemma UnpadRefusesExactly(padded: seq<Byte>)
    ensures UnpadPlaintext(padded) == Err(ShorterThanPrefix) <==> |padded| < 4
    ensures UnpadPlaintext(padded) == Err(OverrunsBuffer) <==>
            |padded| >= 4 && 4 + FromLittleEndian(padded[..4]) > |padded|
  {
  }
}
