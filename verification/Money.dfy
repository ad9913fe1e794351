/** Cost arithmetic in quanta of 1e-12 USD (src/aep/execution_budgets.py:1414-1460).

    A charged or reserved cost is a whole number of quanta.  A declared limit and a price are
    exact decimals that need not be, so they stay `real`. */
module Money {

  /** `Decimal.quantize` with the default rounding mode. */
  function HalfEven(x: real): (n: int)
    ensures n as real - 0.5 <= x <= n as real + 0.5
    ensures x == n as real - 0.5 || x == n as real + 0.5 ==> n % 2 == 0
  {
    var below := x.Floor;
    var part := x - below as real;
    if part < 0.5 then below
    else if 0.5 < part then below + 1
    else if below % 2 == 0 then below
    else below + 1
  }

  /** Two whole numbers cannot both round the same value. */
  lemma HalfEvenIsUnique(x: real, n: int)
    requires n as real - 0.5 <= x <= n as real + 0.5
    requires x == n as real - 0.5 || x == n as real + 0.5 ==> n % 2 == 0
    ensures HalfEven(x) == n
  {
    var m := HalfEven(x);
    assert m < n ==> m as real + 1.0 <= n as real;
    assert n < m ==> n as real + 1.0 <= m as real;
  }

  /** Rounding keeps the order of its arguments. */
  lemma HalfEvenMonotone(x: real, y: real)
    requires x <= y
    ensures HalfEven(x) <= HalfEven(y)
  {
    var m, n := HalfEven(x), HalfEven(y);
    assert n < m ==> n as real + 1.0 <= m as real;
    assert n < m ==> n + 1 == m;
  }

  /** Per-token prices in quanta; the source divides per-million prices by 1 000 000. */
  datatype Pricing = Pricing(input: real, output: real)
  {
    ghost predicate Valid() { 0.0 <= input && 0.0 <= output }
  }

  /** `_estimate_cost` for a priced model. */
  function EstimateCost(pricing: Pricing, input: int, output: int): (quanta: int)
  {
    HalfEven(input as real * pricing.input + output as real * pricing.output)
  }

  /** What tokens cost before any rounding. */
  function Price(pricing: Pricing, input: int, output: int): real {
    input as real * pricing.input + output as real * pricing.output
  }

  lemma EstimateIsRoundedPrice(pricing: Pricing, input: int, output: int)
    ensures EstimateCost(pricing, input, output) == HalfEven(Price(pricing, input, output))
  {
    HalfEvenIsUnique(Price(pricing, input, output), EstimateCost(pricing, input, output));
  }

  lemma EstimateCostNonNegative(pricing: Pricing, input: nat, output: nat)
    requires pricing.Valid()
    ensures 0 <= EstimateCost(pricing, input, output)
  {
    var exact := input as real * pricing.input + output as real * pricing.output;
    assert 0.0 <= input as real * pricing.input;
    assert 0.0 <= output as real * pricing.output;
    HalfEvenMonotone(0.0, exact);
  }

  /** Remaining money under a limit, as `_normalized_cost(limit - consumed)`. */
  function RemainingCost(limit: real, charged: int): int
  {
    HalfEven(limit - charged as real)
  }

  /** What rounding the remainder can add to a limit: nothing when its fraction of a quantum
      is below one half, otherwise less than one quantum; half a quantum alone rounds to nothing. */
  lemma RemainingCostOvershoot(limit: real, charged: int)
    ensures charged + RemainingCost(limit, charged) <= limit.Floor + 1
    ensures limit - limit.Floor as real < 0.5 ==> charged + RemainingCost(limit, charged) == limit.Floor
    ensures limit == 0.5 && charged == 0 ==> RemainingCost(limit, charged) == 0
  {
    var rest := limit - charged as real;
    var whole := limit.Floor - charged;
    assert whole as real == limit.Floor as real - charged as real;
    assert whole as real <= rest < whole as real + 1.0;
    HalfEvenMonotone(rest, (whole + 1) as real);
    if limit - limit.Floor as real < 0.5 {
      HalfEvenIsUnique(rest, whole);
    }
    if limit == 0.5 && charged == 0 { HalfEvenIsUnique(rest, 0); }
  }

  lemma RealScale(less: real, more: real, k: real)
    requires 0.0 < k
    ensures less <= more <==> less * k <= more * k
    ensures less < more <==> less * k < more * k
  {
    assert (more - less) * k == more * k - less * k;
  }

  /** How often a price goes into an amount of money, rounded down (`ROUND_FLOOR`). */
  function Affordable(money: real, price: real): (n: int)
    requires 0.0 < price
    ensures n as real * price <= money < (n + 1) as real * price
  {
    var quotient := money / price;
    FloorOf(quotient, money, price);
    quotient.Floor
  }

  lemma Between(low: real, x: real, high: real, product: real, k: real)
    requires 0.0 < k && low <= x < high && x * k == product
    ensures low * k <= product < high * k
  {
    RealScale(low, x, k);
    RealScale(x, high, k);
  }

  lemma FloorOf(quotient: real, money: real, price: real)
    requires 0.0 < price && quotient * price == money
    ensures quotient.Floor as real * price <= money < (quotient.Floor + 1) as real * price
  {
    Between(quotient.Floor as real, quotient, (quotient.Floor + 1) as real, money, price);
  }

  /** The share of `part` among `whole` equal parts, rounded to a quantum. */
  function Portion(amount: int, part: int, whole: int): (share: int)
    requires 1 <= whole
    ensures -whole <= 2 * (share * whole - amount * part) <= whole
  {
    var exact := (amount * part) as real / whole as real;
    RoundedShare(exact, HalfEven(exact), amount * part, whole);
    HalfEven(exact)
  }

  lemma Enclosed(low: real, x: real, high: real, product: real, k: real)
    requires 0.0 < k && low <= x <= high && x * k == product
    ensures low * k <= product <= high * k
  {
    RealScale(low, x, k);
    RealScale(x, high, k);
  }

  /** The half taken off and put on again, without fractions. */
  lemma Halves(share: int, whole: int, total: int)
    requires (share as real - 0.5) * whole as real <= total as real <= (share as real + 0.5) * whole as real
    ensures -whole <= 2 * (share * whole - total) <= whole
  {
    var s, w := share as real, whole as real;
    assert (s - 0.5) * w == s * w - 0.5 * w && (s + 0.5) * w == s * w + 0.5 * w;
    RealProduct(share, whole);
    Doubled(share * whole, whole, total);
  }

  lemma Doubled(product: int, whole: int, total: int)
    requires product as real - 0.5 * whole as real <= total as real <= product as real + 0.5 * whole as real
    ensures -whole <= 2 * (product - total) <= whole
  {
  }

  lemma RealProduct(a: int, b: int)
    ensures (a * b) as real == a as real * b as real
  {
  }

  lemma RoundedShare(exact: real, share: int, total: int, whole: int)
    requires 1 <= whole && exact * whole as real == total as real
    requires share as real - 0.5 <= exact <= share as real + 0.5
    ensures -whole <= 2 * (share * whole - total) <= whole
  {
    Enclosed(share as real - 0.5, exact, share as real + 0.5, total as real, whole as real);
    RealProduct(share, whole);
    Halves(share, whole, total);
  }
}
