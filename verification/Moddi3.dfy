/** The 64-bit remainder of ass1ds.cpp, which doubles the divisor instead of dividing. */
module Moddi3 {
  const MIN := -0x8000_0000_0000_0000
  const MAX := 0x7fff_ffff_ffff_ffff

  type Int64 = x: int | MIN <= x <= MAX

  // ----- arithmetic that wraps -----

  /** What a 64-bit register holds after an operation with result x. */
  function Wrap(x: int): Int64 {
    (x - MIN) % 0x1_0000_0000_0000_0000 + MIN
  }

  function Add(x: int, y: int): Int64 {
    Wrap(x + y)
  }

  function Sub(x: int, y: int): Int64 {
    Wrap(x - y)
  }

  function Neg(x: int): Int64 {
    Wrap(-x)
  }

  lemma WrapIs(x: int)
    ensures MIN <= x <= MAX ==> Wrap(x) == x
    ensures MAX < x <= 2 * MAX ==> Wrap(x) < 0
    ensures x == MAX + 1 ==> Wrap(x) == MIN
    ensures x == 2 * MIN ==> Wrap(x) == 0
  {
  }

  // ----- products, one law at a time -----

  function Times(d: int, n: int): int {
    d * n
  }

  lemma TimesAdd(d: int, a: int, b: int)
    ensures Times(d, a + b) == Times(d, a) + Times(d, b)
  {
  }

  lemma TimesMono(d: nat, a: int, b: int)
    requires a <= b
    ensures Times(d, a) <= Times(d, b)
  {
  }

  lemma TimesUnit(d: int)
    ensures Times(d, 0) == 0 && Times(d, 1) == d
  {
  }

  /** Quotient and remainder of non-negative numbers. */
  function Quotient(n: nat, d: nat): nat
    requires d > 0
  {
    n / d
  }

  function Modulo(n: nat, d: nat): nat
    requires d > 0
  {
    n % d
  }

  lemma DivMod(n: nat, d: nat)
    requires d > 0
    ensures n == Times(d, Quotient(n, d)) + Modulo(n, d) && Modulo(n, d) < d
  {
  }

  lemma RemainderUnique(n: nat, d: nat, t: nat, r: nat)
    requires n == Times(d, t) + r && r < d
    ensures Modulo(n, d) == r && Quotient(n, d) == t
  {
    hide Times;
    hide Quotient;
    hide Modulo;
    var q := Quotient(n, d);
    DivMod(n, d);
    TimesUnit(d);
    TimesAdd(d, q, 1);
    TimesAdd(d, t, 1);
    if q < t {
      TimesMono(d, q + 1, t);
    } else if t < q {
      TimesMono(d, t + 1, q);
    }
  }

  // ----- the remainder -----

  function Abs(a: int): nat {
    if a < 0 then -a else a
  }

  /** The remainder of section 6.5.5 of ISO/IEC 9899:1999: division truncates toward zero. */
  function TruncatedRemainder(a: int, b: int): int
    requires b != 0
  {
    var r := Abs(a) % Abs(b);
    if a < 0 then -r else r
  }

  /** It goes with the quotient that is truncated toward zero. */
  lemma TruncatedIs(a: int, b: int)
    requires b != 0
    ensures var r := TruncatedRemainder(a, b);
            && Abs(r) < Abs(b) && (r != 0 ==> (r < 0 <==> a < 0))
            && a == Times(b, if (a < 0) == (b < 0) then Abs(a) / Abs(b) else -(Abs(a) / Abs(b))) + r
  {
  }

  // ----- the loops -----

  /** The inner loop: takes t times the divisor off number, and what is left is less than t + 1 times it.  By
      doubling it needs few turns. */
  method Reduce(number: Int64, divisor: Int64) returns (rest: Int64, ghost t: nat, ghost turns: nat)
    requires 0 < divisor
    ensures number < 0 ==> rest == number
    ensures number >= 0 ==> 0 <= rest <= number && number == Times(divisor, t) + rest && rest < Times(divisor, t + 1)
    ensures number >= divisor ==> rest < number
    ensures turns <= 63
  {
    hide Times;
    hide Wrap;
    hide Pow2;
    rest, t, turns := number, 0, 0;
    Pow2Start();
    var divisor2 := divisor;
    ghost var w: nat := 1;
    TimesUnit(divisor);
    while rest >= divisor2
      invariant 0 < divisor2 && divisor2 == Times(divisor, w) && number == Times(divisor, t) + rest && t + 1 >= w
      invariant if number < 0 then rest == number else 0 <= rest <= number
      invariant rest < number || divisor2 == divisor
      invariant if rest < divisor2 then turns <= 63 else w == Pow2(turns)
      decreases rest
    {
      TurnBound(divisor, turns);
      TimesAdd(divisor, t, w);
      WrapIs(rest as int - divisor2 as int);
      rest := Sub(rest, divisor2);
      t := t + w;
      WrapIs(divisor2 as int + divisor2 as int);
      turns := turns + 1;
      if Add(divisor2, divisor2) > 0 {
        Pow2Next(turns);
        TimesAdd(divisor, w, w);
        divisor2 := Add(divisor2, divisor2);
        w := w + w;
      }
    }
    TimesMono(divisor, w, t + 1);
  }

  /** The quotient of what is left is at most half of what it was. */
  lemma QuotientHalves(number: nat, divisor: nat, t: nat, rest: nat)
    requires divisor > 0 && number == Times(divisor, t) + rest && rest < Times(divisor, t + 1)
    ensures 2 * Quotient(rest, divisor) <= Quotient(number, divisor)
  {
    hide Times;
    hide Quotient;
    hide Modulo;
    var q := Quotient(rest, divisor);
    DivMod(rest, divisor);
    TimesAdd(divisor, q, t);
    RemainderUnique(number, divisor, q + t, Modulo(rest, divisor));
    if q > t {
      TimesMono(divisor, t + 1, q);
    }
  }

  function Pow2(n: nat): (p: nat)
    ensures p > 0
  {
    if n == 0 then 1 else 2 * Pow2(n - 1)
  }

  lemma {:induction false} Pow2Grows(a: nat, b: nat)
    requires a <= b
    ensures Pow2(a) <= Pow2(b)
  {
    if a < b {
      Pow2Grows(a, b - 1);
    }
  }

  lemma Pow2At63()
    ensures Pow2(63) == MAX + 1
  {
    assert Pow2(8) == 0x100;
    assert Pow2(16) == 0x1_0000;
    assert Pow2(24) == 0x100_0000;
    assert Pow2(32) == 0x1_0000_0000;
    assert Pow2(40) == 0x100_0000_0000;
    assert Pow2(48) == 0x1_0000_0000_0000;
    assert Pow2(56) == 0x100_0000_0000_0000;
  }

  lemma Pow2Start()
    ensures Pow2(0) == 1
  {
  }

  lemma Pow2Next(n: nat)
    requires n > 0
    ensures Pow2(n) == Pow2(n - 1) + Pow2(n - 1)
  {
  }

  lemma TurnBound(divisor: Int64, turns: nat)
    requires 0 < divisor && Times(divisor, Pow2(turns)) <= MAX
    ensures turns <= 62
  {
    hide Times;
    if turns >= 63 {
      Pow2At63();
      Pow2Grows(63, turns);
      OneTimes(Pow2(turns), divisor);
    }
  }

  lemma OneTimes(a: nat, b: nat)
    requires b > 0
    ensures a <= Times(b, a)
  {
  }

  /** After each pass the quotient q has halved, so passes are few. */
  lemma PassBound(q: nat, q': nat, passes: nat, number: nat)
    requires 2 * q' <= q && Times(Pow2(passes), q) <= number <= MAX && (passes > 0 ==> q >= 1)
    ensures Times(Pow2(passes + 1), q') <= number && passes < 64
  {
    var p := Pow2(passes);
    assert Times(2 * p, q') == Times(p, 2 * q');
    hide Times;
    TimesMono(p, 2 * q', q);
    if passes >= 63 {
      Pow2At63();
      Pow2Grows(63, passes);
      TimesUnit(p);
      TimesMono(p, 1, q);
    }
  }

  /** The outer loop. */
  method Passes(number: Int64, divisor: Int64) returns (rest: Int64, ghost passes: nat, ghost turns: nat)
    requires 0 < divisor
    ensures rest == (if number < 0 then number else Modulo(number, divisor)) && passes <= 64 && turns <= 63 * passes
  {
    hide Times;
    hide Pow2;
    hide Quotient;
    hide Modulo;
    rest, passes, turns := number, 0, 0;
    ghost var t: nat := 0;
    TimesUnit(divisor);
    if number >= 0 {
      StartBound(number, divisor);
    }
    while true
      invariant if number < 0 then rest == number && passes == 0 else rest >= 0 && number == Times(divisor, t) + rest
      invariant turns <= 63 * passes
      invariant number >= 0 ==> passes <= 64 && (passes > 0 ==> rest >= divisor) && Times(Pow2(passes), Quotient(rest, divisor)) <= number
      decreases Abs(rest), if passes == 0 then 1 else 0
    {
      ghost var before, s, more := rest, 0, 0;
      rest, s, more := Reduce(rest, divisor);
      turns := turns + more;
      if number >= 0 {
        QuotientHalves(before, divisor, s, rest);
        AtLeastOne(before, divisor);
        PassBound(Quotient(before, divisor), Quotient(rest, divisor), passes, number);
        TimesAdd(divisor, t, s);
      }
      t := t + s;
      passes := passes + 1;
      if rest < divisor {
        if number >= 0 {
          RemainderUnique(number, divisor, t, rest);
        }
        return;
      }
    }
  }

  lemma AtLeastOne(n: nat, d: nat)
    requires d > 0
    ensures n >= d ==> Quotient(n, d) >= 1
  {
  }

  lemma StartBound(number: nat, divisor: nat)
    requires divisor > 0
    ensures Times(Pow2(0), Quotient(number, divisor)) <= number
  {
    DivMod(number, divisor);
    TimesMono(Quotient(number, divisor), 1, divisor);
  }

  datatype Option<T> = None | Some(value: T)

  /** __moddi3; None is the panic for a zero divisor, passes counts the turns of the outer loop and turns those
      of the inner loop.  With the divisor MIN the original does not return. */
  method Remainder(number: Int64, divisor: Int64) returns (r: Option<Int64>, ghost passes: nat, ghost turns: nat)
    requires divisor != MIN
    ensures r == None <==> divisor == 0
    ensures divisor != 0 ==> r == Some(if number == MIN then MIN else TruncatedRemainder(number, divisor))
    ensures passes <= 64 && turns <= 63 * passes
  {
    hide Wrap;
    if divisor == 0 {
      return None, 0, 0;
    }
    var isNumberNegative := number < 0;
    WrapIs(-(number as int));
    WrapIs(-(divisor as int));
    var n := if number < 0 then Neg(number) else number;
    var d := if divisor < 0 then Neg(divisor) else divisor;
    var rest;  // n is negative if number is MIN
    rest, passes, turns := Passes(n, d);
    WrapIs(-(rest as int));
    r := Some(if isNumberNegative then Neg(rest) else rest);
  }

  /** Of the divisors for which it returns, it returns the remainder exactly if number is not MIN. */
  lemma RemainderExactly(number: Int64, divisor: Int64)
    requires divisor != MIN && divisor != 0
    ensures (if number == MIN then MIN else TruncatedRemainder(number, divisor)) == TruncatedRemainder(number, divisor) <==> number != MIN
  {
  }

  /** One turn of the inner loop. */
  function InnerTurn(n: Int64, divisor2: Int64): (Int64, Int64) {
    (Sub(n, divisor2), if Add(divisor2, divisor2) > 0 then Add(divisor2, divisor2) else divisor2)
  }

  function InnerTurns(n: Int64, divisor2: Int64, k: nat): (Int64, Int64)
    decreases k
  {
    if k == 0 then (n, divisor2) else var (n', d') := InnerTurn(n, divisor2); InnerTurns(n', d', k - 1)
  }

  /** With the divisor MIN the inner loop never stops: its test holds after any number of turns. */
  lemma {:induction false} MinDivisorNeverStops(n: Int64, k: nat)
    ensures InnerTurns(n, MIN, k).0 >= InnerTurns(n, MIN, k).1 == MIN
    decreases k
  {
    hide Wrap;
    if k > 0 {
      WrapIs(2 * MIN);
      assert Add(MIN, MIN) == 0;
      MinDivisorNeverStops(InnerTurn(n, MIN).0, k - 1);
    }
  }
}
