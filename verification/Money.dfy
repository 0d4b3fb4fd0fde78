/**
  Fixed-point money: prices and quantities are 64-bit integers scaled by 10^8, and a cost is the
  exact product or an error. `math/big` products are unbounded, so `int` models them as they are.
*/
module Money {

  const SCALE := 100_000_000
  const MIN_INT64 := -0x8000_0000_0000_0000
  const MAX_INT64 := 0x7FFF_FFFF_FFFF_FFFF

  predicate IsInt64(n: int) {
    MIN_INT64 <= n <= MAX_INT64
  }

  datatype Result<+T> = Ok(value: T) | Err(error: Error)

  datatype Error = Inexact | Overflow

  /** `QuoRem` truncates toward zero; Dafny's division does not. */
  function Quo(a: int, b: int): int
    requires b > 0
  {
    if a >= 0 then a / b else -(-a / b)
  }

  function Rem(a: int, b: int): int
    requires b > 0
  {
    a - Quo(a, b) * b
  }

  /** `multiplyScaled`, which `CostFor` is with other type names. */
  function CostFor(price: int, quantity: int): Result<int> {
    var product := price * quantity;
    if Rem(product, SCALE) != 0 then Err(Inexact)
    else if !IsInt64(Quo(product, SCALE)) then Err(Overflow)
    else Ok(Quo(product, SCALE))
  }

  /** A truncated quotient is exact just when some integer is. */
  lemma QuoExact(a: int, b: int, q: int)
    requires b > 0
    ensures q * b == a ==> Rem(a, b) == 0 && Quo(a, b) == q
    ensures Rem(a, b) == 0 ==> Quo(a, b) * b == a
  {
    if q * b == a {
      DivOfProduct(q, b);
      DivOfProduct(-q, b);
      assert -a == -q * b;
    }
  }

  lemma DivOfProduct(q: int, b: int)
    requires b > 0
    ensures q * b / b == q
  {
    var d, r := q * b / b, q * b % b;
    assert q * b == d * b + r;
    assert (q - d) * b == r;
    MultipleAway(q - d, b);
  }

  lemma MultipleAway(n: int, b: int)
    requires b > 0
    ensures n >= 1 ==> n * b >= b
    ensures n <= -1 ==> n * b <= -b
  {
  }

  /**
    `CostFor` is the partial function with the one law: cost * 10^8 = price * quantity. It is
    defined exactly where that equation has a solution that fits an int64, and it tells which of
    the two failed.
  */
  lemma CostForIsExact(price: int, quantity: int, cost: int)
    ensures CostFor(price, quantity) == Ok(cost) <==> cost * SCALE == price * quantity && IsInt64(cost)
    ensures CostFor(price, quantity) == Err(Overflow) ==> Quo(price * quantity, SCALE) * SCALE == price * quantity
    ensures cost * SCALE == price * quantity && !IsInt64(cost) ==> CostFor(price, quantity) == Err(Overflow)
    ensures CostFor(price, quantity) == Err(Inexact) ==> cost * SCALE != price * quantity
  {
    QuoExact(price * quantity, SCALE, cost);
  }

  lemma CostForInexact(price: int, quantity: int)
    ensures CostFor(price, quantity) == Err(Inexact) <==> price * quantity % SCALE != 0
  {
    var product := price * quantity;
    QuoExact(product, SCALE, product / SCALE);
    assert product / SCALE * SCALE + product % SCALE == product;
    if Rem(product, SCALE) == 0 { DivOfProduct(Quo(product, SCALE), SCALE); }
  }

  /** Splitting a quantity splits its cost. */
  lemma CostForAdditive(price: int, a: int, b: int, costA: int, costB: int)
    requires CostFor(price, a) == Ok(costA) && CostFor(price, b) == Ok(costB) && IsInt64(costA + costB)
    ensures CostFor(price, a + b) == Ok(costA + costB)
  {
    CostForIsExact(price, a, costA);
    CostForIsExact(price, b, costB);
    CostForIsExact(price, a + b, costA + costB);
    assert (costA + costB) * SCALE == price * (a + b);
  }

  /** What remains of an exact order after an exact fill is exact too. */
  lemma CostForRemainder(price: int, whole: int, fill: int, costWhole: int, costFill: int)
    requires CostFor(price, whole) == Ok(costWhole) && CostFor(price, fill) == Ok(costFill)
    requires 0 <= price && 0 <= fill <= whole
    ensures 0 <= costFill <= costWhole && CostFor(price, whole - fill) == Ok(costWhole - costFill)
  {
    CostForIsExact(price, whole, costWhole);
    CostForIsExact(price, fill, costFill);
    ProductMonotone(price, fill, whole);
    assert (costWhole - costFill) * SCALE == price * (whole - fill);
    CostForIsExact(price, whole - fill, costWhole - costFill);
  }

  lemma ProductMonotone(factor: int, a: int, b: int)
    requires 0 <= factor && 0 <= a <= b
    ensures 0 <= factor * a <= factor * b
  {
  }

  /** A fill at a better price never costs more. */
  lemma CostForMonotone(price: int, limit: int, quantity: int, cost: int, bound: int)
    requires CostFor(price, quantity) == Ok(cost) && CostFor(limit, quantity) == Ok(bound)
    requires price <= limit && 0 <= quantity
    ensures cost <= bound
  {
    CostForIsExact(price, quantity, cost);
    CostForIsExact(limit, quantity, bound);
    assert price * quantity <= limit * quantity;
  }

  // ---------------------------------------------------------------- ticks and lots

  predicate Multiple(n: int, of: int)
    requires of > 0
  {
    n % of == 0
  }

  /** A price tick and a lot size whose product is a multiple of 10^8. */
  predicate Grid(tick: int, lot: int) {
    tick > 0 && lot > 0 && Multiple(tick * lot, SCALE)
  }

  predicate OnGrid(tick: int, lot: int, price: int, quantity: int)
    requires tick > 0 && lot > 0
  {
    Multiple(price, tick) && Multiple(quantity, lot)
  }

  /** On the grid no cost is inexact. */
  lemma GridIsExact(tick: int, lot: int, price: int, quantity: int)
    requires Grid(tick, lot) && OnGrid(tick, lot, price, quantity)
    ensures CostFor(price, quantity) != Err(Inexact)
  {
    var p, q, k := price / tick, quantity / lot, tick * lot / SCALE;
    assert price == p * tick && quantity == q * lot && tick * lot == k * SCALE;
    var cost := p * q * k;
    calc {
      price * quantity;
      (p * tick) * (q * lot);
      { Rearrange(p, tick, q, lot); }
      (p * q) * (tick * lot);
      (p * q) * (k * SCALE);
      { Associate(p * q, k); }
      cost * SCALE;
    }
    CostForIsExact(price, quantity, cost);
  }

  lemma Rearrange(p: int, t: int, q: int, l: int)
    ensures (p * t) * (q * l) == (p * q) * (t * l)
  {
    calc {
      (p * t) * (q * l);
      p * (t * (q * l));
      p * ((t * q) * l);
      p * ((q * t) * l);
      p * (q * (t * l));
      (p * q) * (t * l);
    }
  }

  lemma Associate(a: int, k: int)
    ensures a * (k * SCALE) == a * k * SCALE
  {
  }

  lemma MultiplesSubtract(a: int, b: int, m: int)
    requires m > 0 && Multiple(a, m) && Multiple(b, m)
    ensures Multiple(a - b, m)
  {
    var x, y := a / m, b / m;
    assert a == x * m && b == y * m;
    assert a - b == (x - y) * m;
    DivOfProduct(x - y, m);
    assert (a - b) / m == x - y;
  }

  /**
    The grid is not only enough. For fills in lots of `lot` at one price, no fill of an order is
    inexact if and only if a single lot is exact; checking the whole order, as admission does, is
    not the same.
  */
  lemma {:induction false} LotsExactIff(price: int, lot: int, lots: nat)
    requires lot > 0 && lots > 0
    ensures (forall k | 0 <= k <= lots :: CostFor(price, k * lot) != Err(Inexact))
            <==> CostFor(price, lot) != Err(Inexact)
  {
    if CostFor(price, lot) != Err(Inexact) {
      CostForInexact(price, lot);
      var u := price * lot / SCALE;
      assert price * lot == u * SCALE;
      forall k | 0 <= k <= lots ensures CostFor(price, k * lot) != Err(Inexact) {
        calc {
          price * (k * lot);
          k * (price * lot);
          k * (u * SCALE);
          k * u * SCALE;
        }
        CostForIsExact(price, k * lot, k * u);
      }
    } else {
      assert 1 * lot == lot;
    }
  }

  /** An order can be admitted although one of its fills cannot be paid exactly. */
  lemma AdmittedButInexact()
    ensures CostFor(50_000_000, 2) == Ok(1) && CostFor(50_000_000, 1) == Err(Inexact)
  {
    CostForIsExact(50_000_000, 2, 1);
    CostForInexact(50_000_000, 1);
  }
}
