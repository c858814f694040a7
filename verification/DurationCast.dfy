/** The overflow-free conversion between integral durations of fmt (src/3rdparty/fmt/chrono.h), for
    integer types of any width and sign. */
module DurationCast {

  function Pow2(n: nat): (p: nat)
    ensures p >= 1
  {
    if n == 0 then 1 else 2 * Pow2(n - 1)
  }

  /** A C++ integer type as `std::numeric_limits` describes it: `digits` excludes the sign bit. */
  datatype IntType = IntType(signed: bool, digits: nat)

  function Min(t: IntType): int { if t.signed then 0 - Pow2(t.digits) else 0 }
  function Max(t: IntType): int { Pow2(t.digits) - 1 }

  predicate Fits(t: IntType, x: int) { Min(t) <= x <= Max(t) }

  const I64: IntType := IntType(true, 63)
  const U64: IntType := IntType(false, 64)

  /** A conversion that may set the error code. */
  datatype Cast = Ok(value: int) | Error

  lemma {:induction false} Pow2Monotone(m: nat, n: nat)
    requires m <= n
    ensures Pow2(m) <= Pow2(n)
    decreases n - m
  {
    if m < n {
      Pow2Monotone(m + 1, n);
    }
  }

  /** `static_cast<From>(max_value<To>())`, used only where the value fits. */
  function MaxAs(from: IntType, to: IntType): int
    requires Fits(from, Max(to))
  {
    Max(to)
  }

  /** `lossless_integral_conversion` with its three overloads: the checks look at the widths first and
      at the value only where the widths leave a doubt. */
  method LosslessConversion(to: IntType, from: IntType, x: int) returns (r: Cast)
    requires Fits(from, x)
    ensures r == if Fits(to, x) then Ok(x) else Error
  {
    if from == to {
      return Ok(x);
    }
    if from.signed == to.signed {
      if from.digits <= to.digits {
        Pow2Monotone(from.digits, to.digits);
      } else {
        if x < Min(to) || x > Max(to) {
          return Error;
        }
      }
      return Ok(x);
    }
    if from.signed && !to.signed {
      if x < 0 {
        return Error;
      }
      if from.digits > to.digits {
        Pow2Monotone(to.digits, from.digits);
        if x > MaxAs(from, to) {
          return Error;
        }
      } else {
        Pow2Monotone(from.digits, to.digits);
      }
    }
    if !from.signed && to.signed {
      if from.digits >= to.digits {
        Pow2Monotone(to.digits, from.digits);
        if x > MaxAs(from, to) {
          return Error;
        }
      } else {
        Pow2Monotone(from.digits, to.digits);
      }
    }
    return Ok(x);
  }

  /** C++ division truncates toward zero. */
  function Truncate(x: int, d: int): (q: int)
    requires d > 0
  {
    if x >= 0 then x / d else -((-x) / d)
  }

  lemma MultiplyKeepsOrder(a: int, b: int, d: int)
    requires a <= b && d > 0
    ensures a * d <= b * d
  {
    assert 0 <= (b - a) * d;
  }

  lemma TruncateBounds(x: int, d: int)
    requires d > 0
    ensures var q := Truncate(x, d); if x >= 0 then q * d <= x < (q + 1) * d else (q - 1) * d < x <= q * d
  {
    if x >= 0 {
      assert x == d * (x / d) + x % d;
    } else {
      assert -x == d * ((-x) / d) + (-x) % d;
    }
  }

  /** Truncation is the only quotient whose multiple is the nearest one toward zero. */
  lemma TruncateMeans(x: int, d: int, q: int)
    requires d > 0
    ensures q == Truncate(x, d) <==> (if x >= 0 then q * d <= x < (q + 1) * d else (q - 1) * d < x <= q * d)
  {
    TruncateBounds(x, d);
    var t := Truncate(x, d);
    if q > t { MultiplyKeepsOrder(t + 1, q, d); MultiplyKeepsOrder(t, q - 1, d); }
    if q < t { MultiplyKeepsOrder(q, t - 1, d); MultiplyKeepsOrder(q + 1, t, d); }
  }

  function Width(t: IntType): nat {
    t.digits + if t.signed then 1 else 0
  }

  /** The common type of two integer types: the wider one; between types of different sign the unsigned one
      unless the signed one is wider. */
  function Common(a: IntType, b: IntType): IntType {
    if a.signed == b.signed then (if a.digits >= b.digits then a else b)
    else
      var s, u := if a.signed then a else b, if a.signed then b else a;
      if Width(u) >= Width(s) then u else s
  }

  /** The common type of both counts and the 64-bit factor. */
  function Intermediate(from: IntType, to: IntType): IntType {
    Common(Common(from, to), I64)
  }

  /** With types of at most 64 bits it is one of two. */
  lemma IntermediateOf64Bits(from: IntType, to: IntType)
    requires Width(from) <= 64 && Width(to) <= 64
    ensures Intermediate(from, to) == if from == U64 || to == U64 then U64 else I64
  {
  }

  lemma UpperBound(count: int, num: int, max: int, q: int)
    requires num > 0 && q * num <= max < (q + 1) * num
    ensures count > q <==> count * num > max
  {
    if count > q { MultiplyKeepsOrder(q + 1, count, num); } else { MultiplyKeepsOrder(count, q, num); }
  }

  lemma LowerBound(count: int, num: int, min: int, q: int)
    requires num > 0 && (q - 1) * num < min <= q * num
    ensures count < q <==> count * num < min
  {
    if count < q { MultiplyKeepsOrder(count, q - 1, num); } else { MultiplyKeepsOrder(q, count, num); }
  }

  /** The bound check before the multiplication is exact, at both ends. */
  lemma BoundIsExact(count: int, num: int, max: int, min: int)
    requires num > 0 && max >= 0 && min <= 0
    ensures count > Truncate(max, num) <==> count * num > max
    ensures count < Truncate(min, num) <==> count * num < min
  {
    TruncateBounds(max, num);
    UpperBound(count, num, max, Truncate(max, num));
    TruncateBounds(min, num);
    if min == 0 {
      MultiplyKeepsOrder(0, 1, num);
    }
    LowerBound(count, num, min, Truncate(min, num));
  }

  /** A product that the type can hold: the multiplication cannot overflow. */
  function Multiply(t: IntType, a: int, b: int): int
    requires Fits(t, a * b)
  {
    a * b
  }

  /** When the conversion of `count` times `num/den` reports an error. */
  ghost predicate Fails(from: IntType, to: IntType, count: int, num: int, den: int)
    requires den > 0
  {
    var mid := Intermediate(from, to);
    !Fits(mid, count) || !Fits(mid, count * num) || !Fits(to, Truncate(count * num, den))
  }

  /** What the conversion of `count` times `num/den` should give. */
  ghost function CastOf(from: IntType, to: IntType, count: int, num: int, den: int): Cast
    requires den > 0
  {
    if Fails(from, to, count, num, den) then Error else Ok(Truncate(count * num, den))
  }

  lemma DivideShrinks(x: int, d: int)
    requires x >= 0 && d > 0
    ensures 0 <= x / d <= x
  {
    TruncateBounds(x, d);
    if x / d > x { MultiplyKeepsOrder(1, d, x / d); }
    if x / d < 0 { MultiplyKeepsOrder(x / d + 1, 0, d); }
  }

  lemma DivisionFits(t: IntType, x: int, den: int)
    requires den > 0 && Fits(t, x)
    ensures Fits(t, Truncate(x, den))
  {
    DivideShrinks(if x >= 0 then x else -x, den);
  }

  /** Integral `safe_duration_cast` with the reduced factor `num/den`: it returns the exact truncated
      quotient, or reports an error exactly when the count, the product or the quotient does not fit
      its type; no operation in between overflows. */
  method SafeDurationCast(from: IntType, to: IntType, count: int, num: int, den: int) returns (r: Cast)
    requires num > 0 && den > 0 && Fits(from, count)
    requires Fits(I64, num) && Fits(I64, den)
    ensures r == CastOf(from, to, count, num, den)
    ensures r.Ok? ==> Fits(to, r.value)
  {
    var mid := Intermediate(from, to);
    var converted := LosslessConversion(mid, from, count);
    if converted.Error? {
      return Error;
    }
    var product := MultiplyChecked(mid, converted.value, num);
    if product.Error? {
      return Error;
    }
    var quotient := Divide(mid, product.value, den);
    r := LosslessConversion(to, mid, quotient);
  }

  /** The multiplication, with the check in front of it. */
  method MultiplyChecked(t: IntType, count: int, num: int) returns (r: Cast)
    requires num > 0 && Fits(t, count)
    ensures r == if Fits(t, count * num) then Ok(count * num) else Error
  {
    if num == 1 {
      return Ok(count);
    }
    BoundIsExact(count, num, Max(t), Min(t));
    var max1 := Truncate(Max(t), num);
    if count > max1 {
      return Error;
    }
    var min1 := Truncate(Min(t), num);
    if count < min1 {
      return Error;
    }
    return Ok(Multiply(t, count, num));
  }

  method Divide(t: IntType, count: int, den: int) returns (q: int)
    requires den > 0 && Fits(t, count)
    ensures q == Truncate(count, den) && Fits(t, q)
  {
    DivisionFits(t, count, den);
    if den == 1 {
      return count;
    }
    return Truncate(count, den);
  }

  lemma TruncateBack(count: int, num: int)
    requires num > 0
    ensures Truncate(count * num, num) == count && Truncate(count * num, 1) == count * num
  {
    TruncateMeans(count * num, num, count);
    TruncateMeans(count * num, 1, count * num);
    if count * num >= 0 { MultiplyKeepsOrder(count, count + 1, num); } else { MultiplyKeepsOrder(count - 1, count, num); }
  }

  /** A cast to a finer unit that succeeds can be undone: the cast back succeeds and returns the count, for
      all types and all counts. */
  lemma RefineAndReturn(from: IntType, to: IntType, count: int, num: int)
    requires num > 0 && Fits(from, count)
    ensures var fine := CastOf(from, to, count, num, 1);
            fine.Ok? ==> CastOf(to, from, fine.value, 1, num) == Ok(count)
  {
    TruncateBack(count, num);
    var fine := CastOf(from, to, count, num, 1);
    if fine.Ok? {
      assert fine.value == count * num && fine.value * 1 == count * num;
      CommonIsSymmetric(from, to);
    }
  }

  lemma CommonIsSymmetric(a: IntType, b: IntType)
    ensures Common(a, b) == Common(b, a)
  {
  }

  lemma {:induction false} Pow2Sum(m: nat, n: nat)
    ensures Pow2(m + n) == Pow2(m) * Pow2(n)
    decreases n
  {
    if n > 0 {
      Pow2Sum(m, n - 1);
      assert 2 * (Pow2(m) * Pow2(n - 1)) == Pow2(m) * (2 * Pow2(n - 1));
    }
  }

  lemma Pow2Of32()
    ensures Pow2(8) == 0x100 && Pow2(16) == 0x1_0000 && Pow2(32) == 0x1_0000_0000
  {
    assert Pow2(4) == 16;
    Pow2Sum(4, 4);
    Pow2Sum(8, 8);
    Pow2Sum(16, 16);
  }

  /** The usual integer types. */
  lemma UsualRanges()
    ensures Min(IntType(true, 31)) == -0x8000_0000 && Max(IntType(true, 31)) == 0x7fff_ffff
    ensures Min(IntType(false, 32)) == 0 && Max(IntType(false, 32)) == 0xffff_ffff
    ensures Min(I64) == -0x8000_0000_0000_0000 && Max(I64) == 0x7fff_ffff_ffff_ffff
    ensures Min(U64) == 0 && Max(U64) == 0xffff_ffff_ffff_ffff
  {
    Pow2Of32();
    assert Pow2(32) == 2 * Pow2(31);
    Pow2Sum(32, 32);
    assert Pow2(64) == 2 * Pow2(63);
  }
}
