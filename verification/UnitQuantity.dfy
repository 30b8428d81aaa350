/** Unit-aware quantities of the storefront, in exact arithmetic: clamping, and buying by amount. */
module UnitQuantity {
  import opened Text
  import opened Money

  /** A JavaScript number: finite, or NaN or infinite. */
  datatype Num = NonFinite | Finite(value: real)

  datatype QtyRules = QtyRules(step: real, min: real, decimals: nat)

  predicate IsFractionalUnit(baseUnit: string) {
    var normalized := Lower(Trim(baseUnit));
    normalized != "" && normalized != "unit"
  }

  function RulesFor(baseUnit: string): QtyRules {
    if IsFractionalUnit(baseUnit) then QtyRules(0.25, 0.05, 3) else QtyRules(1.0, 1.0, 0)
  }

  /** `10 ** decimals` for the unit. */
  function Factor(baseUnit: string): (f: real)
    ensures f == if IsFractionalUnit(baseUnit) then 1000.0 else 1.0
  {
    assert Pow10(3) == 10 * Pow10(2) == 1000;
    Pow10(RulesFor(baseUnit).decimals) as real
  }

  /** `k` parts, when `factor` parts make one. */
  function Parts(k: int, factor: real): real
    requires factor > 0.0
  {
    k as real / factor
  }

  function RoundTo(value: real, factor: real): real
    requires factor > 0.0
  {
    Parts(RoundHalfUp(value * factor), factor)
  }

  function ClampQty(value: Num, baseUnit: string): real {
    if value.NonFinite? then RulesFor(baseUnit).min
    else AtLeast(RoundTo(value.value, Factor(baseUnit)), RulesFor(baseUnit).min)
  }

  function AtLeast(rounded: real, min: real): real {
    if rounded < min then min else rounded
  }

  /** The cost of a finite quantity, in whole cents. */
  function Cost(qty: real, unitPrice: real): real {
    RoundTo(qty * unitPrice, 100.0)
  }

  function QuantityForAmount(amount: Num, unitPrice: Num, baseUnit: string): real {
    if amount.NonFinite? || unitPrice.NonFinite? || unitPrice.value <= 0.0 then 0.0
    else RoundTo(amount.value / unitPrice.value, Factor(baseUnit))
  }

  function AmountForQuantity(qty: Num, unitPrice: Num): real {
    if qty.NonFinite? || unitPrice.NonFinite? then 0.0 else Cost(qty.value, unitPrice.value)
  }

  /** The value is a whole number of the unit's smallest parts. */
  ghost predicate OnGrid(value: real, factor: real)
    requires factor > 0.0
  {
    exists k: int :: value == Parts(k, factor)
  }

  lemma PartsScale(k: int, factor: real)
    requires factor > 0.0
    ensures Parts(k, factor) * factor == k as real
  {
  }

  lemma RoundToIs(value: real, factor: real, x: real)
    requires factor > 0.0 && x == value * factor
    ensures RoundTo(value, factor) == Parts(RoundHalfUp(x), factor)
  {
  }

  lemma RoundToOnGrid(value: real, factor: real)
    requires factor > 0.0 && OnGrid(value, factor)
    ensures RoundTo(value, factor) == value
  {
    var k: int :| value == Parts(k, factor);
    PartsScale(k, factor);
    var x := value * factor;
    assert x == k as real;
    RoundWhole(x, k);
    RoundToIs(value, factor, x);
  }

  lemma RoundToIsNear(value: real, factor: real)
    requires factor > 0.0
    ensures OnGrid(RoundTo(value, factor), factor)
    ensures -0.5 <= value * factor - RoundTo(value, factor) * factor <= 0.5
  {
    PartsScale(RoundHalfUp(value * factor), factor);
  }

  lemma {:induction false} RoundToMonotone(v: real, w: real, factor: real)
    requires (factor == 1.0 || factor == 1000.0) && v <= w
    ensures RoundTo(v, factor) <= RoundTo(w, factor)
  {
    assert RoundHalfUp(v * factor) <= RoundHalfUp(w * factor);
  }

  lemma MinOnGrid(baseUnit: string)
    ensures OnGrid(RulesFor(baseUnit).min, Factor(baseUnit))
  {
    if IsFractionalUnit(baseUnit) {
      assert Parts(50, 1000.0) == 0.05;
    } else {
      assert Parts(1, 1.0) == 1.0;
    }
  }

  lemma ClampLandsOnGrid(v: real, f: real, min: real)
    requires f > 0.0 && OnGrid(min, f)
    ensures OnGrid(AtLeast(RoundTo(v, f), min), f) && AtLeast(RoundTo(v, f), min) >= min
  {
    RoundToIsNear(v, f);
  }

  /** An input not below the minimum is only rounded. */
  lemma ClampOnlyRounds(v: real, f: real, min: real)
    requires (f == 1.0 || f == 1000.0) && OnGrid(min, f) && v >= min
    ensures AtLeast(RoundTo(v, f), min) == RoundTo(v, f)
  {
    RoundToOnGrid(min, f);
    RoundToMonotone(min, v, f);
  }

  lemma ClampIsStable(r: real, f: real, min: real)
    requires (f == 1.0 || f == 1000.0) && OnGrid(min, f) && OnGrid(r, f) && r >= min
    ensures AtLeast(RoundTo(r, f), min) == r
  {
    RoundToOnGrid(r, f);
  }

  lemma ClampOnRules(v: Num, f: real, min: real, r: real)
    requires (f == 1.0 || f == 1000.0) && OnGrid(min, f)
    requires r == if v.NonFinite? then min else AtLeast(RoundTo(v.value, f), min)
    ensures r >= min && OnGrid(r, f)
    ensures v.Finite? && v.value >= min ==> -0.5 <= v.value * f - r * f <= 0.5
    ensures AtLeast(RoundTo(r, f), min) == r
  {
    if v.Finite? {
      ClampLandsOnGrid(v.value, f, min);
      if v.value >= min {
        ClampOnlyRounds(v.value, f, min);
        RoundToIsNear(v.value, f);
      }
    }
    ClampIsStable(r, f, min);
  }

  /** Clamping lands on the unit's grid, at or above its minimum, within half a part of any
      input not below the minimum; and clamping again changes nothing. */
  lemma {:induction false} ClampQtyIsNearestAllowed(v: Num, baseUnit: string)
    ensures var f, r := Factor(baseUnit), ClampQty(v, baseUnit);
            && r >= RulesFor(baseUnit).min && OnGrid(r, f)
            && (v.Finite? && v.value >= RulesFor(baseUnit).min ==> -0.5 <= v.value * f - r * f <= 0.5)
            && ClampQty(Finite(r), baseUnit) == r
  {
    MinOnGrid(baseUnit);
    ClampOnRules(v, Factor(baseUnit), RulesFor(baseUnit).min, ClampQty(v, baseUnit));
  }

  lemma {:induction false} ClampQtyIsMonotone(v: real, w: real, baseUnit: string)
    requires v <= w
    ensures ClampQty(Finite(v), baseUnit) <= ClampQty(Finite(w), baseUnit)
  {
    RoundToMonotone(v, w, Factor(baseUnit));
  }

  lemma Distribute(x: real, y: real, r: real)
    ensures (x - y) * r == x * r - y * r
  {
  }

  lemma Scale(x: real, lo: real, hi: real, p: real)
    requires lo <= x <= hi && p > 0.0
    ensures lo * p <= x * p <= hi * p
  {
  }

  lemma Cancel(x: real, y: real, p: real)
    requires x * p == y * p && p > 0.0
    ensures x == y
  {
  }

  lemma RoundBounds(x: real)
    ensures -0.5 < RoundHalfUp(x) as real - x <= 0.5
  {
  }

  lemma ReconcilesScaled(amount: real, q: real, qty: real, half: real, price: real)
    requires q * price == amount && -half <= q - qty <= half && price > 0.0
    ensures -half * price <= amount - qty * price <= half * price
  {
    Distribute(q, qty, price);
    Scale(q - qty, -half, half, price);
  }

  /** Half of the unit's smallest part. */
  function HalfPart(baseUnit: string): real {
    if IsFractionalUnit(baseUnit) then 0.0005 else 0.5
  }

  lemma NearestPart(value: real, baseUnit: string)
    ensures -HalfPart(baseUnit) <= value - RoundTo(value, Factor(baseUnit)) <= HalfPart(baseUnit)
  {
    RoundToIsNear(value, Factor(baseUnit));
  }

  lemma Quotient(x: real, y: real)
    requires y > 0.0
    ensures x / y * y == x
  {
  }

  /** Buying by amount: the derived quantity costs the entered amount up to half of its
      smallest part, a two-thousandth of the price for a fractional unit. */
  lemma AmountReconciles(amount: real, price: real, baseUnit: string)
    requires price > 0.0
    ensures var half := HalfPart(baseUnit);
            var gap := amount - QuantityForAmount(Finite(amount), Finite(price), baseUnit) * price;
            -half * price <= gap <= half * price
  {
    var q, half := amount / price, HalfPart(baseUnit);
    var qty := QuantityForAmount(Finite(amount), Finite(price), baseUnit);
    Quotient(amount, price);
    NearestPart(q, baseUnit);
    ReconcilesScaled(amount, q, qty, half, price);
  }

  /** The amount is within max(0.01, price / 1000) of the cost of the quantity. */
  predicate WithinTolerance(quantity: real, amount: real, price: real) {
    var gap := amount - Cost(quantity, price);
    (-0.01 <= gap <= 0.01) || (-price * 0.001 <= gap <= price * 0.001)
  }

  /** A loose line bought by amount: the minima of the request, then the checks of the service. */
  predicate ApiAccepts(quantity: real, amount: real, price: real, baseUnit: string) {
    quantity >= 0.001 && amount >= 0.01 && baseUnit != "unit" && WithinTolerance(quantity, amount, price)
  }

  /** The derived quantity of a fractional unit always reconciles with the amount. */
  lemma DerivedQuantityReconciles(amount: real, price: real, baseUnit: string)
    requires price > 0.0 && IsFractionalUnit(baseUnit)
    ensures WithinTolerance(QuantityForAmount(Finite(amount), Finite(price), baseUnit), amount, price)
  {
    var qty := QuantityForAmount(Finite(amount), Finite(price), baseUnit);
    AmountReconciles(amount, price, baseUnit);
    var cost, paid := qty * price, Cost(qty, price);
    RoundToIsNear(cost, 100.0);
    assert -0.5 <= cost * 100.0 - paid * 100.0 <= 0.5;
  }

  lemma AtLeastOne(r: real, p: real, f: real)
    requires r * p == f && p > 0.0
    ensures r >= 1.0 <==> f >= p
  {
  }

  /** The derived quantity is at least one part exactly when the amount pays for half of one. */
  lemma DerivedQuantityIsPositiveIff(amount: real, price: real, baseUnit: string)
    requires price > 0.0 && IsFractionalUnit(baseUnit)
    ensures QuantityForAmount(Finite(amount), Finite(price), baseUnit) >= 0.001 <==> 2000.0 * amount >= price
  {
    var q := amount / price;
    Quotient(amount, price);
    assert 2000.0 * q * price == 2000.0 * amount;
    AtLeastOne(2000.0 * q, price, 2000.0 * amount);
    var x := q * 1000.0;
    RoundToIs(q, 1000.0, x);
    PartsScale(RoundHalfUp(x), 1000.0);
  }

  lemma UnitIsCountable()
    ensures !IsFractionalUnit("unit")
  {
    var unit := "unit";
    assert TrimStart(unit) == unit && TrimEnd(unit) == unit;
    assert Lower(unit) == unit;
  }

  /** The orders API accepts an amount with the quantity the storefront derives from it exactly
      when it is at least a cent and pays for half a part: otherwise the quantity rounds to zero. */
  lemma {:induction false} ApiAcceptsDerivedQuantityIff(amount: real, price: real, baseUnit: string)
    requires price > 0.0 && IsFractionalUnit(baseUnit)
    ensures ApiAccepts(QuantityForAmount(Finite(amount), Finite(price), baseUnit), amount, price, baseUnit)
      <==> amount >= 0.01 && 2000.0 * amount >= price
  {
    DerivedQuantityReconciles(amount, price, baseUnit);
    DerivedQuantityIsPositiveIff(amount, price, baseUnit);
    UnitIsCountable();
  }

  function Larger(x: real, y: real): real {
    if x < y then y else x
  }

  /** The price authority of the server: an accepted amount is off the exact cost of its quantity by
      at most a cent, or a thousandth of the price, and half a cent of rounding; and every amount
      that is half a cent closer is accepted. */
  lemma {:induction false} ApiChargesCost(quantity: real, amount: real, price: real, baseUnit: string, exact: real)
    requires exact == quantity * price && price > 0.0
    ensures ApiAccepts(quantity, amount, price, baseUnit) ==>
      -Larger(0.01, price / 1000.0) - 0.005 <= amount - exact <= Larger(0.01, price / 1000.0) + 0.005
    ensures (quantity >= 0.001 && amount >= 0.01 && baseUnit != "unit"
             && -Larger(0.01, price / 1000.0) + 0.005 <= amount - exact <= Larger(0.01, price / 1000.0) - 0.005) ==>
      ApiAccepts(quantity, amount, price, baseUnit)
  {
    var paid := Cost(quantity, price);
    CostIs(quantity, price, exact);
    RoundToIsNear(exact, 100.0);
    assert -0.5 <= exact * 100.0 - paid * 100.0 <= 0.5;
    assert price * 0.001 == price / 1000.0;
  }

  /** A cent's worth at 1000 a kilogram is no quantity, and is refused. */
  lemma {:induction false} CentIsRefused(baseUnit: string)
    requires IsFractionalUnit(baseUnit)
    ensures var quantity := QuantityForAmount(Finite(0.01), Finite(1000.0), baseUnit);
            quantity == 0.0 && !ApiAccepts(quantity, 0.01, 1000.0, baseUnit)
  {
    var q := 0.01 / 1000.0;
    assert q == 0.00001;
    var x := q * 1000.0;
    assert RoundHalfUp(x) == 0;
    RoundToIs(q, 1000.0, x);
  }

  /** Scaling a whole number by r, rounding, scaling back and rounding again. */
  function ThereAndBack(c: int, r: real): int
    requires r > 0.0
  {
    RoundHalfUp(RoundHalfUp(c as real * r) as real / r)
  }

  lemma TimesOne(x: real, r: real)
    requires r == 1.0
    ensures x * r == x && x / r == x
  {
  }

  lemma ExactAtOne(c: int)
    ensures ThereAndBack(c, 1.0) == c
  {
    TimesOne(c as real, 1.0);
    RoundWhole(c as real, c);
  }

  /** Less than half of a stretched step rounds back. */
  lemma SmallOffset(d: real, r: real)
    requires r > 1.0 && -0.5 < d * r <= 0.5
    ensures -0.5 < d < 0.5
  {
    if d >= 0.5 {
      Scale(d, 0.5, d, r);
      assert false;
    }
    if d <= -0.5 {
      Scale(d, d, -0.5, r);
      assert false;
    }
  }

  lemma RoundNear(y: real, c: int)
    requires -0.5 < y - c as real < 0.5
    ensures RoundHalfUp(y) == c
  {
  }

  lemma ExactAboveOne(c: int, r: real)
    requires r > 1.0
    ensures ThereAndBack(c, r) == c
  {
    var x := c as real * r;
    var k := RoundHalfUp(x);
    var y := k as real / r;
    RoundBounds(x);
    Quotient(k as real, r);
    Distribute(y, c as real, r);
    var d := y - c as real;
    assert d * r == k as real - x;
    SmallOffset(d, r);
    RoundNear(y, c);
  }

  lemma ExactWhenStretching(c: int, r: real)
    requires r >= 1.0
    ensures ThereAndBack(c, r) == c
  {
    if r == 1.0 {
      ExactAtOne(c);
    } else {
      ExactAboveOne(c, r);
    }
  }

  lemma RoundMonotone(x: real, y: real)
    requires x <= y
    ensures RoundHalfUp(x) <= RoundHalfUp(y)
  {
  }

  lemma {:induction false} ExactScalesAscend(n: nat, r: real)
    requires r > 0.0 && forall c: int :: ThereAndBack(c, r) == c
    ensures RoundHalfUp(n as real * r) >= n
  {
    if n == 0 {
      RoundWhole(0 as real * r, 0);
    } else {
      ExactScalesAscend(n - 1, r);
      Scale(n as real, (n - 1) as real, n as real, r);
      RoundMonotone((n - 1) as real * r, n as real * r);
      assert ThereAndBack(n, r) == n && ThereAndBack(n - 1, r) == n - 1;
    }
  }

  lemma InexactWhenShrinking(r: real)
    requires 0.0 < r < 1.0
    ensures exists c: int :: ThereAndBack(c, r) != c
  {
    if forall c: int :: ThereAndBack(c, r) == c {
      var s := 1.0 / (1.0 - r);
      var n: nat := s.Floor + 1;
      assert s * (1.0 - r) == 1.0;
      Scale(n as real, s, n as real, 1.0 - r);
      assert n as real * (1.0 - r) == n as real - n as real * r;
      RoundBounds(n as real * r);
      ExactScalesAscend(n, r);
    }
  }

  /** Rounding there and back is exact for every whole number exactly when the scale does not shrink. */
  lemma ThereAndBackExactIff(r: real)
    requires r > 0.0
    ensures (forall c: int :: ThereAndBack(c, r) == c) <==> r >= 1.0
  {
    if r >= 1.0 {
      forall c: int ensures ThereAndBack(c, r) == c {
        ExactWhenStretching(c, r);
      }
    } else {
      InexactWhenShrinking(r);
    }
  }

  function AmountThereAndBack(amount: real, price: real, baseUnit: string): real {
    AmountForQuantity(Finite(QuantityForAmount(Finite(amount), Finite(price), baseUnit)), Finite(price))
  }

  function QuantityThereAndBack(qty: real, price: real, baseUnit: string): real {
    QuantityForAmount(Finite(AmountForQuantity(Finite(qty), Finite(price))), Finite(price), baseUnit)
  }

  /** Two ways of writing the same scaling, for x cents at a price and f parts to the unit. */
  lemma Rescaled(x: real, price: real, f: real)
    requires price > 0.0 && f > 0.0
    ensures x / 100.0 / price * f == x * (f / (100.0 * price))
    ensures x / f * price * 100.0 == x * (100.0 * price / f)
    ensures x / f * price * 100.0 == x / (f / (100.0 * price))
    ensures x / 100.0 / price * f == x / (100.0 * price / f)
  {
    var p := 100.0 * price;
    var r, r', q, u := f / p, p / f, x / 100.0 / price, x / f;
    assert r * p == f && r' * f == p && q * price == x / 100.0 && u * f == x;
    assert q * p == x;
    RescaledStep(q, r, p, f, x);
    RescaledStep(u, r', f, p, x);
    assert u * price * 100.0 == u * p;
  }

  lemma RescaledStep(q: real, r: real, p: real, f: real, x: real)
    requires p > 0.0 && f > 0.0 && r * p == f && q * p == x && r > 0.0
    ensures q * f == x * r
    ensures q * f == x / (p / f)
  {
    assert x * r == q * p * r == q * (r * p);
    var v, w := p / f, x / (p / f);
    assert v * f == p;
    assert v > 0.0;
    assert w * v == x;
    assert (q * f) * v == q * (v * f);
    Cancel(q * f, w, v);
  }

  lemma QuantityStep(c: int, price: real, baseUnit: string, x: real)
    requires price > 0.0 && x == c as real / 100.0 / price * Factor(baseUnit)
    ensures QuantityForAmount(Finite(Parts(c, 100.0)), Finite(price), baseUnit)
      == Parts(RoundHalfUp(x), Factor(baseUnit))
  {
    RoundToIs(Parts(c, 100.0) / price, Factor(baseUnit), x);
  }

  lemma CostIs(qty: real, price: real, cost: real)
    requires cost == qty * price
    ensures Cost(qty, price) == RoundTo(cost, 100.0)
  {
  }

  lemma AmountStep(k: int, price: real, baseUnit: string, y: real)
    requires price > 0.0 && y == k as real / Factor(baseUnit) * price * 100.0
    ensures AmountForQuantity(Finite(Parts(k, Factor(baseUnit))), Finite(price)) == Parts(RoundHalfUp(y), 100.0)
  {
    var q := Parts(k, Factor(baseUnit));
    var cost := q * price;
    assert cost * 100.0 == y;
    RoundToIs(cost, 100.0, y);
    CostIs(q, price, cost);
  }

  lemma ThereAndBackIs(c: int, r: real, x: real, y: real)
    requires r > 0.0 && x == c as real * r && y == RoundHalfUp(x) as real / r
    ensures ThereAndBack(c, r) == RoundHalfUp(y)
  {
  }

  lemma PartsInjective(j: int, k: int, factor: real)
    requires factor > 0.0
    ensures Parts(j, factor) == Parts(k, factor) <==> j == k
  {
    PartsScale(j, factor);
    PartsScale(k, factor);
  }

  lemma AmountThereAndBackScaled(c: int, price: real, baseUnit: string, r: real)
    requires price > 0.0 && r == Factor(baseUnit) / (100.0 * price) && r > 0.0
    ensures AmountThereAndBack(Parts(c, 100.0), price, baseUnit) == Parts(ThereAndBack(c, r), 100.0)
  {
    var f, x := Factor(baseUnit), c as real * r;
    var k := RoundHalfUp(x);
    var y := k as real / r;
    Rescaled(c as real, price, f);
    Rescaled(k as real, price, f);
    QuantityStep(c, price, baseUnit, x);
    AmountStep(k, price, baseUnit, y);
    ThereAndBackIs(c, r, x, y);
  }

  lemma QuantityThereAndBackScaled(k: int, price: real, baseUnit: string, r: real)
    requires price > 0.0 && r == 100.0 * price / Factor(baseUnit) && r > 0.0
    ensures QuantityThereAndBack(Parts(k, Factor(baseUnit)), price, baseUnit)
      == Parts(ThereAndBack(k, r), Factor(baseUnit))
  {
    var f, x := Factor(baseUnit), k as real * r;
    var c := RoundHalfUp(x);
    var y := c as real / r;
    Rescaled(k as real, price, f);
    Rescaled(c as real, price, f);
    AmountStep(k, price, baseUnit, x);
    QuantityStep(c, price, baseUnit, y);
    ThereAndBackIs(k, r, x, y);
  }

  lemma {:induction false} AmountExactIff(price: real, baseUnit: string, r: real)
    requires price > 0.0 && r == Factor(baseUnit) / (100.0 * price) && r > 0.0
    ensures (forall c: int :: AmountThereAndBack(Parts(c, 100.0), price, baseUnit) == Parts(c, 100.0)) <==> r >= 1.0
  {
    ThereAndBackExactIff(r);
    forall c: int
      ensures AmountThereAndBack(Parts(c, 100.0), price, baseUnit) == Parts(c, 100.0) <==> ThereAndBack(c, r) == c
    {
      AmountThereAndBackScaled(c, price, baseUnit, r);
      PartsInjective(ThereAndBack(c, r), c, 100.0);
    }
  }

  /** Amount to quantity to amount is exact for every whole-cent amount exactly when one part
      of the unit costs at most a cent: up to 10 a kilogram, up to 0.01 a countable unit. */
  lemma AmountRoundTripIff(price: real, baseUnit: string)
    requires price > 0.0
    ensures (forall c: int :: AmountThereAndBack(Parts(c, 100.0), price, baseUnit) == Parts(c, 100.0))
            <==> price <= (if IsFractionalUnit(baseUnit) then 10.0 else 0.01)
  {
    var f := Factor(baseUnit);
    var r := f / (100.0 * price);
    assert r * (100.0 * price) == f;
    assert r > 0.0;
    AtLeastOne(r, 100.0 * price, f);
    AmountExactIff(price, baseUnit, r);
  }

  /** Quantity to amount to quantity is exact for every quantity on the unit's grid exactly
      when one part of the unit costs at least a cent. */
  lemma QuantityRoundTripIff(price: real, baseUnit: string)
    requires price > 0.0
    ensures (forall k: int :: var q := Parts(k, Factor(baseUnit)); QuantityThereAndBack(q, price, baseUnit) == q)
            <==> price >= (if IsFractionalUnit(baseUnit) then 10.0 else 0.01)
  {
    var f := Factor(baseUnit);
    var r := 100.0 * price / f;
    assert r * f == 100.0 * price;
    assert r > 0.0;
    ThereAndBackExactIff(r);
    forall k: int
      ensures QuantityThereAndBack(Parts(k, f), price, baseUnit) == Parts(k, f) <==> ThereAndBack(k, r) == k
    {
      QuantityThereAndBackScaled(k, price, baseUnit, r);
      PartsInjective(ThereAndBack(k, r), k, f);
    }
    AtLeastOne(r, f, 100.0 * price);
  }

  /** A unit sells in fractions unless it is empty or `unit`, in any letter case and between any
      white space. */
  lemma {:induction false} FractionalIff(before: string, name: string, after: string)
    requires AllSpaces(before) && AllSpaces(after) && Trimmed(name)
    ensures IsFractionalUnit(before + name + after) <==> name != "" && Lower(name) != "unit"
  {
    TrimOf(before, name, after);
  }

  /** The rules in numbers: thousandths from 50 thousandths on, or whole units from one on. */
  lemma {:induction false} ClampInNumbers(v: Num, baseUnit: string)
    ensures var r := ClampQty(v, baseUnit);
            if IsFractionalUnit(baseUnit)
            then r >= 0.05 && OnGrid(r, 1000.0) && (v.Finite? && v.value < 0.05 ==> r == 0.05)
            else r >= 1.0 && OnGrid(r, 1.0) && (v.Finite? && v.value < 1.0 ==> r == 1.0)
    ensures v.NonFinite? ==> ClampQty(v, baseUnit) == if IsFractionalUnit(baseUnit) then 0.05 else 1.0
  {
    ClampQtyIsNearestAllowed(v, baseUnit);
    if v.Finite? && v.value < RulesFor(baseUnit).min {
      MinOnGrid(baseUnit);
      ClampBelow(v.value, Factor(baseUnit), RulesFor(baseUnit).min);
    }
  }

  lemma ClampBelow(v: real, f: real, min: real)
    requires (f == 1.0 || f == 1000.0) && OnGrid(min, f) && v < min
    ensures AtLeast(RoundTo(v, f), min) == min
  {
    RoundToOnGrid(min, f);
    RoundToMonotone(v, min, f);
  }

  lemma PartsAdd(k: int, n: int, f: real)
    requires f > 0.0
    ensures Parts(k, f) + Parts(n, f) == Parts(k + n, f)
  {
  }

  /** Tapping plus on an allowed quantity gives an allowed one: steps are whole parts, four of them
      a kilogram or litre, one of them a countable unit. */
  lemma {:induction false} StepStaysAllowed(v: Num, baseUnit: string)
    ensures var r, step := ClampQty(v, baseUnit), RulesFor(baseUnit).step;
            && ClampQty(Finite(r + step), baseUnit) == r + step
            && (if IsFractionalUnit(baseUnit) then 4.0 * step == 1.0 else step == 1.0)
  {
    ClampQtyIsNearestAllowed(v, baseUnit);
    MinOnGrid(baseUnit);
    var r, f, rules := ClampQty(v, baseUnit), Factor(baseUnit), RulesFor(baseUnit);
    var k: int :| r == Parts(k, f);
    var n := if IsFractionalUnit(baseUnit) then 250 else 1;
    StepParts(n, f, rules.step);
    PartsAdd(k, n, f);
    assert OnGrid(r + rules.step, f);
    ClampIsStable(r + rules.step, f, rules.min);
  }

  lemma StepParts(n: int, f: real, step: real)
    requires (n == 250 && f == 1000.0 && step == 0.25) || (n == 1 && f == 1.0 && step == 1.0)
    ensures Parts(n, f) == step
  {
  }

  /** Without a usable amount or price there is no quantity, and the API refuses it. */
  lemma {:induction false} NoPriceNoQuantity(amount: Num, price: Num, baseUnit: string)
    requires amount.NonFinite? || price.NonFinite? || price.value <= 0.0
    ensures QuantityForAmount(amount, price, baseUnit) == 0.0
    ensures forall paid: real, unitPrice: real :: !ApiAccepts(QuantityForAmount(amount, price, baseUnit), paid, unitPrice, baseUnit)
  {
  }
}
