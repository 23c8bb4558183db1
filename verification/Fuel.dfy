/** Conversion between bitbell, the coin's unit, and the fuel units of the WASM machine. */
module Fuel {
  import opened Common

  const ACTIVATE_FUEL_CONSUMPTION: nat := 20_000
  const MAX_WM_FUEL: nat := 1_000_000_000

  /** A line y = (num / den) * x + q. */
  datatype Line = Line(num: int, den: int, q: int)

  const SLOW := Line(2, 100, -9_000)
  const FAST := Line(5, 100, -309_000)
  const SATURATION := Line(1, 1000, 4_591_000)

  const BASE_BITBELL: nat := 999
  const SLOW_BITBELL_LOWER: nat := 1_000
  const SLOW_BITBELL: nat := 191_000
  const FAST_BITBELL: nat := 4_691_000
  const BASE_FUEL: nat := 500_000
  const SLOW_FUEL: nat := 10_000_000
  const FAST_FUEL: nat := 100_000_000

  // ---------- machine arithmetic ----------

  const TWO63 := 0x8000_0000_0000_0000
  const TWO64 := 0x1_0000_0000_0000_0000

  predicate Fits(x: int) { -TWO63 <= x < TWO63 }

  /** The i64 a result wraps to. */
  function I64(x: int): int {
    (x + TWO63) % TWO64 - TWO63
  }

  function AsU64(x: int): nat {
    x % TWO64
  }

  /** Division that truncates toward zero. */
  function TDiv(a: int, b: int): int
    requires b > 0
  {
    if a >= 0 then a / b else -((-a) / b)
  }

  function RetrieveX(y: nat, line: Line): nat
    requires line.num > 0
  {
    AsU64(I64(TDiv(I64(I64(y) * line.den), line.num) - TDiv(I64(line.q * line.den), line.num)))
  }

  function RetrieveY(x: nat, line: Line): nat
    requires line.den > 0
  {
    AsU64(I64(TDiv(I64(I64(x) * line.num), line.den) + line.q))
  }

  // ---------- the conversions ----------

  function BitbellToWmFuel(bitbell: nat): nat {
    if bitbell <= BASE_BITBELL then 0
    else if bitbell <= SLOW_BITBELL then RetrieveX(bitbell, SLOW)
    else if bitbell <= FAST_BITBELL then RetrieveX(bitbell, FAST)
    else RetrieveX(bitbell, SATURATION)
  }

  function WmFuelToBitbell(fuel: nat): nat {
    if fuel <= BASE_FUEL then SLOW_BITBELL_LOWER
    else if fuel <= SLOW_FUEL then RetrieveY(fuel, SLOW)
    else if fuel <= FAST_FUEL then RetrieveY(fuel, FAST)
    else RetrieveX(fuel, SATURATION)
  }

  /** What a caller may burn: everything before activation, then what limit and balance buy. */
  method CalculateWmFuelLimit(height: nat, balance: Option<nat>, txFuelLimit: nat) returns (limit: nat)
    ensures height <= 20_000 ==> limit == 1_000_000_000
    ensures height > 20_000 && balance.None? ==> limit == 0
    ensures height > 20_000 && balance.Some? ==>
              var bought := BitbellToWmFuel(if txFuelLimit <= balance.value then txFuelLimit else balance.value);
              && limit == Granted(Min(txFuelLimit, balance.value))
              && limit == if bought <= 1_000_000_000 then bought else 1_000_000_000
  {
    limit := MAX_WM_FUEL;
    if height > ACTIVATE_FUEL_CONSUMPTION {
      if balance.None? {
        return 0;
      }
      var bitbellLimit := Min(txFuelLimit, balance.value);
      limit := Min(BitbellToWmFuel(bitbellLimit), MAX_WM_FUEL);
    }
  }

  function Granted(bitbell: nat): nat {
    Min(BitbellToWmFuel(bitbell), MAX_WM_FUEL)
  }

  // ---------- no overflow ----------

  const BITBELL_MAX: nat := 9_223_372_036_854_775

  lemma I64Fits(x: int)
    ensures I64(x) == x <==> Fits(x)
    ensures 0 <= x < TWO64 ==> AsU64(x) == x
  {
  }

  /** While every intermediate value is an i64 and the result is not negative, nothing wraps. */
  lemma RetrieveXFits(y: nat, line: Line, product: int, offset: int)
    requires line.num > 0 && product == y * line.den && offset == line.q * line.den
    requires Fits(y) && Fits(product) && Fits(offset)
    requires 0 <= TDiv(product, line.num) - TDiv(offset, line.num) < TWO63
    ensures RetrieveX(y, line) == TDiv(product, line.num) - TDiv(offset, line.num)
  {
    I64Fits(y);
    I64Fits(product);
    I64Fits(offset);
    I64Fits(TDiv(product, line.num) - TDiv(offset, line.num));
  }

  /** Up to a bound every intermediate value of the inverse lines is an i64, and the results are exact. */
  lemma SlowExact(y: nat)
    requires y <= BITBELL_MAX
    ensures RetrieveX(y, SLOW) == 50 * y + 450_000
  {
    RetrieveXFits(y, SLOW, y * 100, -900_000);
  }

  lemma FastExact(y: nat)
    requires y <= BITBELL_MAX
    ensures RetrieveX(y, FAST) == 20 * y + 6_180_000
  {
    RetrieveXFits(y, FAST, y * 100, -30_900_000);
  }

  lemma SaturationExact(y: nat)
    requires SATURATION.q <= y <= BITBELL_MAX
    ensures Fits(y * 1000) && Fits(1000 * y - 4_591_000_000)
    ensures RetrieveX(y, SATURATION) == 1000 * y - 4_591_000_000
  {
    RetrieveXFits(y, SATURATION, y * 1000, 4_591_000_000);
  }

  lemma RetrieveYExact(x: nat, line: Line)
    requires (line == SLOW && x >= BASE_FUEL) || (line == FAST && x >= SLOW_FUEL)
    requires x <= FAST_FUEL
    ensures Fits(x * line.num) && x * line.num / line.den + line.q >= 0
    ensures RetrieveY(x, line) == x * line.num / line.den + line.q
  {
    I64Fits(x);
    I64Fits(x * line.num);
    I64Fits(x * line.num / line.den + line.q);
  }

  // ---------- closed forms ----------

  lemma BitbellClosed(b: nat)
    requires b <= BITBELL_MAX
    ensures BitbellToWmFuel(b) ==
            if b <= 999 then 0
            else if b <= 191_000 then 50 * b + 450_000
            else if b <= 4_691_000 then 20 * b + 6_180_000
            else 1000 * b - 4_591_000_000
  {
    if b <= SLOW_BITBELL { SlowExact(b); }
    if b <= FAST_BITBELL { FastExact(b); } else { SaturationExact(b); }
  }

  lemma FuelClosed(f: nat)
    requires f <= BITBELL_MAX
    ensures WmFuelToBitbell(f) ==
            if f <= 500_000 then 1000
            else if f <= 10_000_000 then f * 2 / 100 - 9_000
            else if f <= 100_000_000 then f * 5 / 100 - 309_000
            else 1000 * f - 4_591_000_000
  {
    if 500_000 < f <= 10_000_000 { RetrieveYExact(f, SLOW); }
    if 10_000_000 < f <= 100_000_000 { RetrieveYExact(f, FAST); }
    if f > 100_000_000 { SaturationExact(f); }
  }

  // ---------- theorems ----------

  /** Both conversions are monotone across all range boundaries. */
  lemma Monotone(a: nat, b: nat)
    requires a <= b <= BITBELL_MAX
    ensures BitbellToWmFuel(a) <= BitbellToWmFuel(b)
    ensures WmFuelToBitbell(a) <= WmFuelToBitbell(b)
  {
    BitbellClosed(a);
    BitbellClosed(b);
    FuelClosed(a);
    FuelClosed(b);
  }

  /** Where the conversions are not an adjoint pair: the smallest price below the fuel it buys, and the
      saturation range, where fuel is priced by the inverse of the line meant for it. */
  predicate Mispriced(b: nat, f: nat) {
    || (f < BASE_FUEL && b == SLOW_BITBELL_LOWER)
    || (f > FAST_FUEL && f + 4_591_000_000 < 1000 * b && b <= 1000 * f - 4_591_000_000)
  }

  /** `b` buys no more than `f` iff `f` costs no less than `b`, exactly outside the mispriced pairs. */
  lemma AdjointIff(b: nat, f: nat)
    requires b <= BITBELL_MAX && f <= BITBELL_MAX
    ensures (BitbellToWmFuel(b) <= f <==> b <= WmFuelToBitbell(f)) <==> !Mispriced(b, f)
  {
    BitbellClosed(b);
    FuelClosed(f);
  }

  /** The fuel amounts that price every bitbell amount correctly are those between the base and the end of the
      growth ranges. */
  lemma FuelAdjointIff(f: nat)
    requires f <= BITBELL_MAX
    ensures (forall b: nat :: b <= BITBELL_MAX ==> (BitbellToWmFuel(b) <= f <==> b <= WmFuelToBitbell(f)))
            <==> BASE_FUEL <= f <= FAST_FUEL
  {
    forall b: nat | b <= BITBELL_MAX
      ensures (BitbellToWmFuel(b) <= f <==> b <= WmFuelToBitbell(f)) <==> !Mispriced(b, f)
    {
      AdjointIff(b, f);
    }
    if !(BASE_FUEL <= f <= FAST_FUEL) {
      assert Mispriced(if f < BASE_FUEL then SLOW_BITBELL_LOWER else f, f);
    }
  }

  /** The bitbell amounts that buy no more than any fuel costs: all up to the end of the growth ranges, except
      the smallest price. */
  lemma BitbellAdjointIff(b: nat)
    requires b <= BITBELL_MAX
    ensures (forall f: nat :: f <= BITBELL_MAX ==> (BitbellToWmFuel(b) <= f <==> b <= WmFuelToBitbell(f)))
            <==> b <= FAST_BITBELL && b != SLOW_BITBELL_LOWER
  {
    forall f: nat | f <= BITBELL_MAX
      ensures (BitbellToWmFuel(b) <= f <==> b <= WmFuelToBitbell(f)) <==> !Mispriced(b, f)
    {
      AdjointIff(b, f);
    }
    if b == SLOW_BITBELL_LOWER {
      assert Mispriced(b, 0);
    } else if b > FAST_BITBELL {
      assert Mispriced(b, if b > FAST_FUEL then b else FAST_FUEL + 1);
    }
  }

  // ---------- the whole of u64 ----------

  /** Wrapping changes a number by a multiple of 2^64. */
  lemma I64Wraps(x: int) returns (k: int)
    ensures I64(x) == x + k * TWO64
  {
    k := -((x + TWO63) / TWO64);
  }

  lemma SameResidue(x: int, y: int, k: int)
    requires x == y + k * TWO64
    ensures AsU64(x) == AsU64(y)
  {
    assert x / TWO64 == y / TWO64 + k;
  }

  /** The inverse of the saturation line, for every argument. */
  lemma SaturationWraps(y: nat)
    ensures RetrieveX(y, SATURATION) == AsU64(1000 * y - 4_591_000_000)
  {
    var i := I64Wraps(y);
    var j := I64Wraps(I64(y) * 1000);
    I64Fits(4_591_000_000);
    I64Fits(4_591_000_000_000);
    var k := I64Wraps(I64(I64(y) * 1000) - 4_591_000_000);
    SameResidue(I64(I64(I64(y) * 1000) - 4_591_000_000), 1000 * y - 4_591_000_000, 1000 * i + j + k);
  }

  /** The one amount that comes back after both ways have wrapped around. */
  const WRAPPED_BITBELL: nat := 9_731_165_292_141_666_368

  const INVERSE := 1_672_254_362_768_354_751

  /** The inverse of 999999 modulo 2^64 solves for `b`. */
  lemma SolveForB(b: int, k: int)
    requires 999_999 * b == 4_595_591_000_000 + k * TWO64
    ensures b == INVERSE * 4_595_591_000_000 + (INVERSE * k - 90_653 * b) * TWO64
  {
    assert INVERSE * 999_999 == 1 + 90_653 * TWO64;
    assert INVERSE * (999_999 * b) == b + 90_653 * b * TWO64;
  }

  lemma OneWrapped(b: nat)
    requires b < TWO64
    ensures AsU64(1_000_000 * b - 4_595_591_000_000) == b <==> b == WRAPPED_BITBELL
  {
    if AsU64(1_000_000 * b - 4_595_591_000_000) == b {
      var k := (1_000_000 * b - 4_595_591_000_000) / TWO64;
      SolveForB(b, k);
      SameResidue(b, INVERSE * 4_595_591_000_000, INVERSE * k - 90_653 * b);
    }
  }

  /** Bitbell survives the way to fuel and back exactly in the two growth ranges, and, by wrapping around on both
      ways, in one further amount of all that a u64 holds. */
  lemma RoundTripIff(b: nat)
    requires b < TWO64
    ensures WmFuelToBitbell(BitbellToWmFuel(b)) == b
            <==> SLOW_BITBELL_LOWER <= b <= FAST_BITBELL || b == WRAPPED_BITBELL
  {
    if b <= FAST_BITBELL {
      BitbellClosed(b);
      FuelClosed(BitbellToWmFuel(b));
    } else {
      SaturationWraps(b);
      var f := BitbellToWmFuel(b);
      if f <= FAST_FUEL {
        FuelClosed(f);
        assert AsU64(1000 * WRAPPED_BITBELL - 4_591_000_000) > FAST_FUEL;
      } else {
        SaturationWraps(f);
        var k := (1000 * b - 4_591_000_000) / TWO64;
        SameResidue(1000 * f - 4_591_000_000, 1_000_000 * b - 4_595_591_000_000, -1000 * k);
        OneWrapped(b);
      }
    }
  }

  ghost predicate NeverOvercharged(b: nat) {
    forall f: nat :: f <= Granted(b) ==> WmFuelToBitbell(f) <= b
  }

  /** No burn within the granted limit costs more than the bitbell it was granted for, exactly when that
      amount lies in the growth ranges or pays for the largest burn at the saturation price. */
  lemma NeverOverchargedIff(b: nat)
    ensures NeverOvercharged(b) <==> SLOW_BITBELL_LOWER <= b <= FAST_BITBELL || b >= 995_409_000_000
  {
    if b <= BITBELL_MAX { BitbellClosed(b); }
    forall f: nat | f <= Granted(b)
      ensures SLOW_BITBELL_LOWER <= b <= FAST_BITBELL || b >= 995_409_000_000 ==> WmFuelToBitbell(f) <= b
    {
      FuelClosed(f);
    }
    FuelClosed(Granted(b));
    FuelClosed(FAST_FUEL + 1);
    FuelClosed(0);
    if b < SLOW_BITBELL_LOWER {
      assert WmFuelToBitbell(0) > b;
    } else if FAST_BITBELL < b < 995_409_000_000 {
      var f := Granted(b);
      assert f <= Granted(b) && WmFuelToBitbell(f) > b;
    }
  }

  /** One unit of fuel past the growth ranges multiplies the price by more than twenty thousand. */
  lemma SaturationJump()
    ensures WmFuelToBitbell(100_000_000) == 4_691_000
    ensures WmFuelToBitbell(100_000_001) == 95_409_001_000
  {
    FuelClosed(100_000_000);
    FuelClosed(100_000_001);
  }
}
