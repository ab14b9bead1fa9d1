/** Fixed-point audio energy (orbit/audio_processing/audio_energy.cc). The methods
    keep the bit tests of the code; the functions say what they compute, and the
    main result is that the chosen shift keeps the sum of squares inside int32. */
module AudioEnergy {
  import opened Widths

  type int16 = x: int | -0x8000 <= x < 0x8000
  type int32 = x: int | -0x8000_0000 <= x < 0x8000_0000

  const LIMIT := 0x8000_0000

  function Int16(x: int): int16 {
    (x + 0x8000) % 0x1_0000 - 0x8000
  }

  function Int32(x: int): int32 {
    (x + 0x8000_0000) % 0x1_0000_0000 - 0x8000_0000
  }

  /** x << n, without truncation. */
  function Shl(x: nat, n: nat): nat {
    if n == 0 then x else 2 * Shl(x, n - 1)
  }

  /** x >> n. */
  function Shr(x: nat, n: nat): nat {
    if n == 0 then x else Shr(x, n - 1) / 2
  }

  /** x << n on 32 bits. */
  function Shl32(x: uint32, n: nat): uint32 {
    Shl(x, n) % 0x1_0000_0000
  }

  /** Has x a one among its bits lo, ..., hi - 1? The masks of the code are runs
      of ones, so this is the value of (mask & x) as a truth value. */
  predicate Bits(x: nat, lo: nat, hi: nat)
    requires lo <= hi
    decreases hi - lo
  {
    lo < hi && (Shr(x, hi - 1) % 2 == 1 || Bits(x, lo, hi - 1))
  }

  /** (mask & x) for the 32-bit mask of all bits from lo on, as in 0xFF800000. */
  predicate HighBits(x: uint32, lo: nat)
    requires lo <= 32
  {
    Bits(x, lo, 32)
  }

  /** (mask & x) for the mask of bits k, ..., 2 * k - 1, as in 0x0000FF00. */
  predicate UpperHalf(x: nat, k: nat) {
    Bits(x, k, 2 * k)
  }

  // ---------------------------------------------------------------- what is computed

  /** How often a positive number can be doubled below 2^31. */
  function Headroom(a: int): nat
    requires 0 < a < LIMIT
    decreases LIMIT - a
  {
    if a >= 0x4000_0000 then 0 else 1 + Headroom(2 * a)
  }

  /** WebRtcSpl_NormW32 on a value that is not negative. */
  function Norm(a: int): nat
    requires 0 <= a < LIMIT
  {
    if a == 0 then 0 else Headroom(a)
  }

  function SizeInBits(n: nat): nat {
    if n == 0 then 0 else 1 + SizeInBits(n / 2)
  }

  /** The largest 16-bit absolute value, as the code accumulates it from -1. */
  function MaxAbs(xs: seq<int16>): (r: int)
    ensures -1 <= r <= 0x7FFF
  {
    if xs == [] then -1 else
      var m := MaxAbs(xs[..|xs| - 1]);
      var x := xs[|xs| - 1];
      var a := Int16(if x > 0 then x as int else -(x as int));
      if a > m then a else m
  }

  function Square(x: int): (r: nat)
    ensures -0x8000 <= x <= 0x8000 ==> r <= 0x4000_0000
    ensures x != 0 ==> r > 0
  {
    SquareBounds(x);
    x * x
  }

  function Scale(xs: seq<int16>, times: nat): nat {
    var m := MaxAbs(xs);
    if m == 0 then 0 else
      var t := Norm(Square(m));
      if t > SizeInBits(times) then 0 else SizeInBits(times) - t
  }

  function SumOfSquares(xs: seq<int16>, scale: nat): nat {
    if xs == [] then 0 else
      SumOfSquares(xs[..|xs| - 1], scale) + Shr(Square(xs[|xs| - 1]), scale)
  }

  // ---------------------------------------------------------------- arithmetic

  lemma MulMonotone(a: int, b: int, c: int, d: int)
    requires 0 <= a <= b && 0 <= c <= d
    ensures 0 <= a * c <= b * d
  {
    assert a * c <= b * c;
    assert b * c <= b * d;
  }

  lemma SquareBounds(x: int)
    ensures 0 <= x * x && (x != 0 ==> x * x > 0)
    ensures -0x8000 <= x <= 0x8000 ==> x * x <= 0x4000_0000
  {
    var y := if x < 0 then -x else x;
    assert x * x == y * y;
    MulMonotone(0, y, 0, y);
    if y <= 0x8000 {
      MulMonotone(y, 0x8000, y, 0x8000);
    }
    if y > 0 {
      MulMonotone(1, y, 1, y);
    }
  }

  lemma SquareMonotone(x: int, m: int)
    requires -m <= x <= m
    ensures Square(x) <= Square(m)
  {
    var y := if x < 0 then -x else x;
    assert x * x == y * y;
    MulMonotone(y, m, y, m);
  }

  lemma {:induction false} ShlSum(x: nat, m: nat, n: nat)
    ensures Shl(x, m + n) == Shl(Shl(x, m), n)
  {
    if n > 0 {
      ShlSum(x, m, n - 1);
    }
  }

  lemma {:induction false} ShlMonotone(x: nat, y: nat, n: nat)
    requires x <= y
    ensures Shl(x, n) <= Shl(y, n)
    ensures x < y ==> Shl(x, n) < Shl(y, n)
  {
    if n > 0 {
      ShlMonotone(x, y, n - 1);
    }
  }

  lemma {:induction false} ShlGrows(x: nat, m: nat, n: nat)
    requires m <= n
    ensures Shl(x, m) <= Shl(x, n)
    ensures m < n ==> 2 * Shl(x, m) <= Shl(x, n)
    decreases n
  {
    if m < n {
      ShlGrows(x, m, n - 1);
    }
  }

  lemma {:induction false} ShlTimes(q: nat, k: nat)
    ensures Shl(1, k) * q == Shl(q, k)
  {
    if k > 0 {
      ShlTimes(q, k - 1);
      assert (2 * Shl(1, k - 1)) * q == 2 * (Shl(1, k - 1) * q);
    }
  }

  lemma {:induction false} ShrSum(x: nat, m: nat, n: nat)
    ensures Shr(x, m + n) == Shr(Shr(x, m), n)
  {
    if n > 0 {
      ShrSum(x, m, n - 1);
    }
  }

  /** x >> n is the quotient by 2^n. */
  lemma {:induction false} ShrBounds(x: nat, n: nat)
    ensures Shl(Shr(x, n), n) <= x < Shl(Shr(x, n) + 1, n)
  {
    if n > 0 {
      ShrBounds(x, n - 1);
      var q, h := Shr(x, n - 1), Shr(x, n);
      ShlMonotone(2 * h, q, n - 1);
      ShlMonotone(q + 1, 2 * h + 2, n - 1);
      ShlSum(h, 1, n - 1);
      ShlSum(h + 1, 1, n - 1);
      assert Shl(h, 1) == 2 * h && Shl(h + 1, 1) == 2 * h + 2;
    }
  }

  lemma {:induction false} ShrMonotone(x: nat, y: nat, n: nat)
    requires x <= y
    ensures Shr(x, n) <= Shr(y, n)
  {
    if n > 0 {
      ShrMonotone(x, y, n - 1);
    }
  }

  lemma ShrZero(x: nat, n: nat)
    ensures Shr(x, n) == 0 <==> x < Shl(1, n)
  {
    ShrBounds(x, n);
    if Shr(x, n) > 0 {
      ShlMonotone(1, Shr(x, n), n);
    }
  }

  /** A test of all bits from lo on, when there are none from hi on. */
  lemma {:induction false} BitsAbove(x: nat, lo: nat, hi: nat)
    requires lo <= hi && x < Shl(1, hi)
    ensures Bits(x, lo, hi) <==> x >= Shl(1, lo)
    decreases hi
  {
    if lo < hi {
      var top := Shr(x, hi - 1);
      ShrZero(x, hi);
      ShrZero(x, hi - 1);
      assert top <= 1;
      ShlGrows(1, lo, hi - 1);
      if top == 0 {
        BitsAbove(x, lo, hi - 1);
      }
    }
  }

  lemma Powers()
    ensures Shl(1, 16) == 0x1_0000 && Shl(1, 30) == 0x4000_0000 && Shl(1, 31) == LIMIT && Shl(1, 32) == 2 * LIMIT
  {
    assert Shl(1, 8) == 0x100 by { assert Shl(1, 4) == 16; }
    ShlSum(1, 8, 8);
    assert Shl(0x100, 8) == 0x1_0000 by { assert Shl(0x100, 4) == 0x1000; }
    ShlSum(1, 16, 14);
    assert Shl(0x1_0000, 14) == 0x4000_0000 by {
      assert Shl(0x1_0000, 5) == 0x20_0000;
      assert Shl(0x1_0000, 10) == 0x400_0000;
    }
    assert Shl(1, 31) == 2 * Shl(1, 30) && Shl(1, 32) == 2 * Shl(1, 31);
  }

  // ---------------------------------------------------------------- laws of the parts

  /** NormW32's law: the shifted value fills 31 bits. */
  lemma {:induction false} HeadroomFills(a: int)
    requires 0 < a < LIMIT
    ensures 0x4000_0000 <= Shl(a, Headroom(a)) < LIMIT
    decreases LIMIT - a
  {
    if a < 0x4000_0000 {
      HeadroomFills(2 * a);
      ShlSum(a, 1, Headroom(2 * a));
      assert Shl(a, 1) == 2 * a;
    }
  }

  /** ... and there is only one such shift. */
  lemma HeadroomUnique(a: int, t: nat)
    requires 0 < a < LIMIT && 0x4000_0000 <= Shl(a, t) < LIMIT
    ensures t == Headroom(a)
  {
    HeadroomFills(a);
    var h := Headroom(a);
    if t < h {
      ShlGrows(a, t, h);
    }
    if h < t {
      ShlGrows(a, h, t);
    }
  }

  /** GetSizeInBits' law: n < 2^bits, and half of that is not enough. */
  lemma {:induction false} SizeInBitsBounds(n: nat)
    ensures n < Shl(1, SizeInBits(n))
    ensures n > 0 ==> SizeInBits(n) > 0 && Shl(1, SizeInBits(n) - 1) <= n
  {
    if n > 0 {
      SizeInBitsBounds(n / 2);
    }
  }

  lemma {:induction false} SizeInBitsShift(n: nat, k: nat)
    requires k > 0 ==> Shr(n, k - 1) > 0
    ensures SizeInBits(n) == k + SizeInBits(Shr(n, k))
  {
    if k > 0 {
      assert k > 1 ==> Shr(n, k - 2) > 0;
      SizeInBitsShift(n, k - 1);
    }
  }

  /** Every absolute value is at most the accumulated maximum exactly when no
      sample is -32768, whose negation does not fit 16 bits. */
  lemma {:induction false} MaxAbsBounds(xs: seq<int16>)
    ensures (forall i :: 0 <= i < |xs| ==> -MaxAbs(xs) <= xs[i] <= MaxAbs(xs)) <==> -0x8000 !in xs
  {
    if xs != [] {
      var n := |xs| - 1;
      MaxAbsBounds(xs[..n]);
      assert xs == xs[..n] + [xs[n]];
      assert -0x8000 in xs <==> -0x8000 in xs[..n] || xs[n] == -0x8000;
      if -0x8000 !in xs {
        forall i | 0 <= i < |xs| ensures -MaxAbs(xs) <= xs[i] <= MaxAbs(xs) {
          if i < n {
            assert xs[..n][i] == xs[i];
          }
        }
      } else {
        var i :| 0 <= i < |xs| && xs[i] == -0x8000;
        assert MaxAbs(xs) <= 0x7FFF;
      }
    }
  }

  /** It is the largest absolute value of the samples that are not -32768, and -1 if there
      are none. */
  lemma {:induction false} MaxAbsIsLargest(xs: seq<int16>)
    ensures forall i :: 0 <= i < |xs| && xs[i] != -0x8000 ==> -MaxAbs(xs) <= xs[i] <= MaxAbs(xs)
    ensures MaxAbs(xs) == -1 <==> forall i :: 0 <= i < |xs| ==> xs[i] == -0x8000
    ensures MaxAbs(xs) >= 0 ==>
      exists i :: 0 <= i < |xs| && xs[i] != -0x8000 && (xs[i] == MaxAbs(xs) || xs[i] == -MaxAbs(xs))
  {
    if xs != [] {
      var n := |xs| - 1;
      var before := xs[..n];
      MaxAbsIsLargest(before);
      assert forall i :: 0 <= i < n ==> before[i] == xs[i];
      if MaxAbs(xs) == MaxAbs(before) && MaxAbs(xs) >= 0 {
        var i :| 0 <= i < n && before[i] != -0x8000 && (before[i] == MaxAbs(before) || before[i] == -MaxAbs(before));
        assert xs[i] == before[i];
      }
    }
  }

  // ---------------------------------------------------------------- the shift is the least

  /** Without a sound the scale is 0; else it is the least s for which the largest square,
      times the least power of two above the number of samples, is below 2^31 * 2^s. */
  lemma ScaleIsLeast(xs: seq<int16>, times: nat)
    ensures
      var top, s := Shl(Square(MaxAbs(xs)), SizeInBits(times)), Scale(xs, times);
      if MaxAbs(xs) == 0 then s == 0 else top < Shl(0x8000_0000, s) && (s > 0 ==> Shl(0x8000_0000, s - 1) <= top)
  {
    if MaxAbs(xs) != 0 {
      var a := Square(MaxAbs(xs));
      var bits, t := SizeInBits(times), Headroom(a);
      HeadroomFills(a);
      if t > bits {
        ShlGrows(a, bits, t);
      } else {
        ShlSum(a, t, bits - t);
        ShlMonotone(Shl(a, t), LIMIT, bits - t);
        if bits > t {
          ShlMonotone(0x4000_0000, Shl(a, t), bits - t);
          ShlSum(0x4000_0000, 1, bits - t - 1);
          assert Shl(0x4000_0000, 1) == LIMIT;
        }
      }
    }
  }

  function FullEnergy(xs: seq<int16>): nat {
    if xs == [] then 0 else FullEnergy(xs[..|xs| - 1]) + Square(xs[|xs| - 1])
  }

  /** Scaled back, the energy is the sum of the squares up to less than 2^s a sample. */
  lemma {:induction false} EnergyApproximates(xs: seq<int16>, s: nat)
    ensures Shl(SumOfSquares(xs, s), s) <= FullEnergy(xs) <= Shl(SumOfSquares(xs, s), s) + |xs| * (Shl(1, s) - 1)
  {
    if xs == [] {
      ShlOfNone(s);
    } else {
      var n := |xs| - 1;
      var q := Square(xs[n]);
      EnergyApproximates(xs[..n], s);
      ShrBounds(q, s);
      ShlAdds(SumOfSquares(xs[..n], s), Shr(q, s), s);
      ShlAdds(Shr(q, s), 1, s);
      AddOne(n, Shl(1, s) - 1);
    }
  }

  lemma {:induction false} ShlOfNone(n: nat)
    ensures Shl(0, n) == 0 && Shl(1, n) >= 1
  {
    if n > 0 {
      ShlOfNone(n - 1);
    }
  }

  lemma {:induction false} ShlAdds(x: nat, y: nat, n: nat)
    ensures Shl(x + y, n) == Shl(x, n) + Shl(y, n)
  {
    if n > 0 {
      ShlAdds(x, y, n - 1);
    }
  }

  // ---------------------------------------------------------------- the shift is enough

  lemma {:induction false} SumBound(xs: seq<int16>, m: int, scale: nat)
    requires forall i :: 0 <= i < |xs| ==> -m <= xs[i] <= m
    ensures SumOfSquares(xs, scale) <= |xs| * Shr(Square(m), scale)
  {
    if xs != [] {
      var n := |xs| - 1;
      SumBound(xs[..n], m, scale);
      SquareMonotone(xs[n], m);
      ShrMonotone(Square(xs[n]), Square(m), scale);
      AddOne(n, Shr(Square(m), scale));
    }
  }

  lemma AddOne(n: nat, q: nat)
    ensures (n + 1) * q == n * q + q
  {}

  /** n * (a >> scale) < 2^31 for the scale chosen from n and a. */
  lemma ShiftSuffices(n: nat, a: int)
    requires 0 < a < LIMIT
    ensures
      var bits, t := SizeInBits(n), Headroom(a);
      n * Shr(a, if t > bits then 0 else bits - t) < LIMIT
  {
    var bits, t := SizeInBits(n), Headroom(a);
    var scale := if t > bits then 0 else bits - t;
    var q := Shr(a, scale);
    HeadroomFills(a);
    SizeInBitsBounds(n);
    MulMonotone(n, Shl(1, bits), q, q);
    ShlTimes(q, bits);
    assert n * q <= Shl(q, bits);
    if t > bits {
      ShlGrows(a, bits, t);
    } else {
      ShlSum(q, scale, t);
      ShrBounds(a, scale);
      ShlMonotone(Shl(q, scale), a, t);
    }
  }

  lemma {:induction false} ShrOfZero(n: nat)
    ensures Shr(0, n) == 0
  {
    if n > 0 {
      ShrOfZero(n - 1);
    }
  }

  /** For every buffer without -32768, whatever its length, the energy and all its
      partial sums stay in int32. */
  lemma EnergyFits(xs: seq<int16>, n: nat)
    requires -0x8000 !in xs && n <= |xs|
    ensures SumOfSquares(xs[..n], Scale(xs, |xs|)) < LIMIT
  {
    var m, scale := MaxAbs(xs), Scale(xs, |xs|);
    MaxAbsBounds(xs);
    SumBound(xs[..n], m, scale);
    var q := Shr(Square(m), scale);
    MulMonotone(n, |xs|, q, q);
    if m == 0 {
      ShrOfZero(scale);
      assert q == 0;
    } else {
      ShiftSuffices(|xs|, Square(m));
    }
  }

  /** One sample of -32768 before n of 16383. */
  function MinimumFirst(n: nat): seq<int16> {
    if n == 0 then [-0x8000] else MinimumFirst(n - 1) + [16383]
  }

  lemma {:induction false} MinimumFirstSums(n: nat)
    ensures |MinimumFirst(n)| == n + 1
    ensures MaxAbs(MinimumFirst(n)) == if n == 0 then -1 else 16383
    ensures SumOfSquares(MinimumFirst(n), 0) == 0x4000_0000 + n * 268402689
  {
    var xs := MinimumFirst(n);
    if n == 0 {
      assert xs[..0] == [];
      assert Int16(0x8000) == -0x8000;
    } else {
      MinimumFirstSums(n - 1);
      assert xs[..n] == MinimumFirst(n - 1);
      assert Square(16383) == 268402689;
    }
  }

  /** A single sample of -32768 is enough to overflow: it does not count for the scale,
      but its square is four times that of any sample below 16384. */
  lemma MinimumOverflows()
    ensures var xs := MinimumFirst(6); SumOfSquares(xs, Scale(xs, |xs|)) == 2684157958 >= LIMIT
  {
    var xs := MinimumFirst(6);
    MinimumFirstSums(6);
    Powers();
    assert Square(16383) == 268402689;
    assert Shl(268402689, 3) == 2147221512;
    HeadroomUnique(268402689, 3);
    assert SizeInBits(7) == 3;
    assert Scale(xs, 7) == 0;
  }

  // ---------------------------------------------------------------- the code

  /** One "if no high bit is set, shift by k more" of NormW32: the test finds out
      whether there is room for k more bits, and the step uses the room. */
  lemma NormStep(x: uint32, zeros: nat, k: nat)
    requires 1 <= k <= 16 && Shifted(x, zeros, 2 * k)
    ensures
      var more := if HighBits(Shl32(x, zeros), 31 - k) then zeros else zeros + k;
      Shifted(x, more, k)
  {
    var y := Shl(x, zeros);
    Powers();
    ShlOfZero(zeros);
    ShlGrows(1, 0, 31 - k);
    assert Shl32(x, zeros) == y;
    BitsAbove(y, 31 - k, 32);
    ShlSum(x, zeros, k);
    if y < Shl(1, 31 - k) {
      ShlSum(1, 31 - k, k);
      ShlMonotone(y, Shl(1, 31 - k), k);
      if x > 0 {
        NormLower(y, k);
      }
    }
  }

  lemma {:induction false} ShlOfZero(n: nat)
    ensures Shl(0, n) == 0
  {
    if n > 0 {
      ShlOfZero(n - 1);
    }
  }

  lemma NormLower(y: nat, k: nat)
    requires 1 <= k <= 16 && y >= Shl(1, if 2 * k <= 31 then 31 - 2 * k else 0)
    ensures Shl(y, k) >= Shl(1, 31 - k)
  {
    var low := if 2 * k <= 31 then 31 - 2 * k else 0;
    ShlMonotone(Shl(1, low), y, k);
    ShlSum(1, low, k);
    ShlGrows(1, 31 - k, low + k);
  }

  lemma NormStart(x: uint32)
    requires x < LIMIT
    ensures Shl32(x, 0) == x && Shifted(x, 0, 32)
  {
    Powers();
  }

  /** The value left after some steps of NormW32 has less than k bits of room; 0 has taken
      every step. */
  ghost predicate Shifted(x: uint32, zeros: nat, k: nat) {
    && (x == 0 ==> zeros == 32 - k)
    && Shl(x, zeros) < Shl(1, 31)
    && (x > 0 ==> Shl(x, zeros) >= Shl(1, if k <= 31 then 31 - k else 0))
  }

  lemma ShiftedUnique(x: uint32, zeros: nat)
    requires x < LIMIT && Shifted(x, zeros, 1)
    ensures zeros == if x > 0 then Headroom(x) else 31
  {
    if x > 0 {
      Powers();
      HeadroomUnique(x, zeros);
    }
  }

  method NormW32(a: int32) returns (zeros: nat)
    ensures a == 0 ==> zeros == 0
    ensures a > 0 ==> zeros == Headroom(a)
    ensures a < -1 ==> zeros == Headroom(-(a as int) - 1)
    ensures a == -1 ==> zeros == 31
  {
    if a == 0 {
      return 0;
    }
    zeros := ShiftToTop(if a < 0 then -(a as int) - 1 else a);
  }

  /** One test of NormW32: if none of the high bits is set, there is room for k more. */
  method MakeRoom(x: uint32, was: nat, k: nat) returns (zeros: nat)
    requires 1 <= k <= 16 && Shifted(x, was, 2 * k)
    ensures Shifted(x, zeros, k)
  {
    hide Shl, Bits, Shl32, HighBits, Shifted;
    NormStep(x, was, k);
    zeros := was;
    if !HighBits(Shl32(x, zeros), 31 - k) {
      zeros := zeros + k;
    }
  }

  /** The tests of NormW32 on ~a or a. */
  method ShiftToTop(x: uint32) returns (zeros: nat)
    requires x < LIMIT
    ensures zeros == if x > 0 then Headroom(x) else 31
  {
    NormStart(x);
    hide Headroom, Shifted;
    zeros := MakeRoom(x, 0, 16);
    zeros := MakeRoom(x, zeros, 8);
    zeros := MakeRoom(x, zeros, 4);
    zeros := MakeRoom(x, zeros, 2);
    zeros := MakeRoom(x, zeros, 1);
    ShiftedUnique(x, zeros);
  }

  /** What GetSizeInBits knows after it has counted some bits: the rest of n has at
      most width bits, and is not used up. */
  ghost predicate Counted(n: nat, bits: nat, width: nat) {
    && Shr(n, bits) < Shl(1, width)
    && (n > 0 ==> Shr(n, bits) > 0)
    && SizeInBits(n) == bits + SizeInBits(Shr(n, bits))
  }

  /** One "if the upper half has a bit, count it and move down by k". */
  lemma SizeStep(n: nat, bits: nat, k: nat)
    requires k >= 1 && Counted(n, bits, 2 * k)
    ensures Counted(n, if UpperHalf(Shr(n, bits), k) then bits + k else bits, k)
  {
    var q := Shr(n, bits);
    BitsAbove(q, k, 2 * k);
    if q >= Shl(1, k) {
      ShrSum(n, bits, k);
      ShrZero(q, k - 1);
      ShlGrows(1, k - 1, k);
      SizeInBitsShift(q, k);
      ShrZero(q, k);
      ShrSum(q, k, k);
      ShrZero(q, 2 * k);
      ShrZero(Shr(q, k), k);
    }
  }

  lemma CountedStart(n: uint32)
    ensures Counted(n, 0, 32) && Shr(n, 0) == n
  {
    Powers();
  }

  method GetSizeInBits(n: uint32) returns (bits: nat)
    ensures bits == SizeInBits(n)
  {
    CountedStart(n);
    hide Shl, Shr, UpperHalf, SizeInBits, Counted, Bits;
    SizeStep(n, 0, 16);
    if UpperHalf(n, 16) {
      bits := 16;
    } else {
      bits := 0;
    }
    SizeStep(n, bits, 8);
    if UpperHalf(Shr(n, bits), 8) {
      bits := bits + 8;
    }
    SizeStep(n, bits, 4);
    if UpperHalf(Shr(n, bits), 4) {
      bits := bits + 4;
    }
    SizeStep(n, bits, 2);
    if UpperHalf(Shr(n, bits), 2) {
      bits := bits + 2;
    }
    SizeStep(n, bits, 1);
    if UpperHalf(Shr(n, bits), 1) {
      bits := bits + 1;
    }
    LastBit(n, bits);
    if Bits(Shr(n, bits), 0, 1) {
      bits := bits + 1;
    }
  }

  lemma LastBit(n: nat, bits: nat)
    requires Counted(n, bits, 1)
    ensures SizeInBits(n) == if Bits(Shr(n, bits), 0, 1) then bits + 1 else bits
  {
    var q := Shr(n, bits);
    assert Shl(1, 1) == 2;
    BitsAbove(q, 0, 1);
  }

  method GetScalingSquare(buffer: array<int16>, length: nat, times: uint32) returns (scale: nat)
    requires length <= buffer.Length
    ensures scale == Scale(buffer[..length], times)
  {
    var nbits := GetSizeInBits(times);
    var smax := -1;
    var p := 0;
    var i := length;
    while i > 0
      invariant 0 <= i <= length && p == length - i
      invariant smax == MaxAbs(buffer[..p])
    {
      assert buffer[..p + 1][..p] == buffer[..p];
      var sabs := Int16(if buffer[p] > 0 then buffer[p] as int else -(buffer[p] as int));
      p := p + 1;
      smax := if sabs > smax then sabs else smax;
      i := i - 1;
    }
    var t := NormW32(Square(smax));
    if smax == 0 {
      return 0;
    }
    scale := if t > nbits then 0 else nbits - t;
  }

  /** int32 accumulation, which wraps when it leaves the range. */
  method Energy(buffer: array<int16>, length: nat) returns (energy: int32, scale: nat)
    requires length <= buffer.Length && length < LIMIT
    ensures scale == Scale(buffer[..length], length)
    ensures energy == Int32(SumOfSquares(buffer[..length], scale))
    ensures -0x8000 !in buffer[..length] ==> energy == SumOfSquares(buffer[..length], scale)
  {
    hide Int32, SumOfSquares, Square, Shr;
    ghost var xs := buffer[..length];
    energy := 0;
    scale := GetScalingSquare(buffer, length, length);
    assert xs[..0] == [];
    SumStarts(scale);
    var i := 0;
    while i < length
      invariant 0 <= i <= length
      invariant energy == Int32(SumOfSquares(xs[..i], scale))
    {
      SumGoesOn(xs[..i], buffer[i], scale);
      energy := Int32(energy + Shr(Square(buffer[i]), scale));
      assert xs[..i + 1] == xs[..i] + [buffer[i]];
      i := i + 1;
    }
    assert xs[..length] == xs;
    if -0x8000 !in xs {
      EnergyFits(xs, length);
      Int32Keeps(SumOfSquares(xs, scale));
    }
  }

  lemma SumStarts(scale: nat)
    ensures SumOfSquares([], scale) == 0 == Int32(0)
  {}

  lemma SumGoesOn(xs: seq<int16>, x: int16, scale: nat)
    ensures Int32(Int32(SumOfSquares(xs, scale)) + Shr(Square(x), scale)) == Int32(SumOfSquares(xs + [x], scale))
  {
    hide Int32, Square, Shr;
    assert (xs + [x])[..|xs|] == xs;
    Int32Adds(SumOfSquares(xs, scale), Shr(Square(x), scale));
  }

  lemma Int32Adds(a: int, b: int)
    ensures Int32(Int32(a) + b) == Int32(a + b)
  {
    var k := (a + 0x8000_0000) / 0x1_0000_0000;
    assert Int32(a) == a - k * 0x1_0000_0000;
    SameWrap32(Int32(a) + b + 0x8000_0000, a + b + 0x8000_0000, -k);
  }

  lemma Int32Keeps(x: int)
    requires 0 <= x < LIMIT
    ensures Int32(x) == x
  {}
}
