/**
 * The arithmetic core of the lifecycle planner
 * (lifecycle_planner/src/comparison_logic.py): how many items a year of use
 * consumes, the energy they take to make and to use, the waste they leave,
 * and the comparison of every product in a category. Energies and weights
 * are exact reals; the two-decimal rounding of the reported figures is not
 * part of the model.
 */
module Lifecycle {
  import opened Wrappers

  /** One product record of the table: its name, its type (`"disposable"`,
      `"reusable"` or anything else), the energy to make one item, the
      energy per use, how many uses one item lasts, its weight at end of
      life, and the recycle rate in percent when the record gives one. */
  datatype Product = Product(
    name: string,
    kind: string,
    energyMj: real,
    energyPerUseMj: real,
    lifespanUses: int,
    weightG: real,
    recycleRatePercent: Option<real>)

  /** The result record of `calculate_annual_impact`, unrounded. The waste
      figure appears twice in the source, once at the top level and once in
      the details. */
  datatype Impact = Impact(
    productName: string,
    itemsPerYear: int,
    totalEnergyMj: real,
    totalWasteG: real,
    manufacturingEnergyMj: real,
    useEnergyMj: real,
    wasteDetailG: real)

  /** `math.ceil(a / b)` for a positive divisor: the least `q` with
      `a <= q * b`. */
  function CeilDiv(a: int, b: int): (q: int)
    requires b > 0
    ensures (q - 1) * b < a <= q * b
  {
    -((-a) / b)
  }

  /** The recycle rate as a fraction; a record without one counts as 0. */
  function RecycleFraction(p: Product): real {
    p.recycleRatePercent.GetOr(0.0) / 100.0
  }

  /** The lifespan used for reusable products: a non-positive one counts as
      a single use. */
  function EffectiveLifespan(p: Product): (l: int)
    ensures l >= 1
    ensures p.lifespanUses >= 1 ==> l == p.lifespanUses
    ensures p.lifespanUses <= 0 ==> l == 1
  {
    if p.lifespanUses <= 0 then 1 else p.lifespanUses
  }

  /** The record for `n` items a year out of `total` uses, where `useEnergy`
      is the energy of the use phase. */
  function Summary(p: Product, n: int, useEnergy: real): Impact {
    var manufacturing := n as real * p.energyMj;
    var waste := n as real * (p.weightG * (1.0 - RecycleFraction(p)));
    Impact(p.name, n, manufacturing + useEnergy, waste, manufacturing, useEnergy, waste)
  }

  /** `calculate_annual_impact`: `None` stands for the empty result given
      for a product of unknown type. */
  function AnnualImpact(p: Product, usagePerDay: int, daysPerYear: int): (r: Option<Impact>)
    ensures r.None? <==> p.kind != "disposable" && p.kind != "reusable"
    ensures r.Some? ==> r.value.productName == p.name
    ensures r.Some? ==> r.value.totalEnergyMj == r.value.manufacturingEnergyMj + r.value.useEnergyMj
    ensures r.Some? ==> r.value.manufacturingEnergyMj == r.value.itemsPerYear as real * p.energyMj
    ensures r.Some? ==> r.value.wasteDetailG == r.value.totalWasteG
    ensures r.Some? ==> r.value.totalWasteG == r.value.itemsPerYear as real * (p.weightG * (1.0 - RecycleFraction(p)))
  {
    var total := usagePerDay * daysPerYear;
    if p.kind == "disposable" then
      Some(Summary(p, total, total as real * p.energyPerUseMj))
    else if p.kind == "reusable" then
      Some(Summary(p, CeilDiv(total, EffectiveLifespan(p)), total as real * p.energyPerUseMj))
    else
      None
  }

  /** A disposable product needs one item per use, and each use costs its
      use energy once. */
  lemma DisposableCounts(p: Product, usagePerDay: int, daysPerYear: int)
    requires p.kind == "disposable"
    ensures var r := AnnualImpact(p, usagePerDay, daysPerYear);
      && r.Some?
      && r.value.itemsPerYear == usagePerDay * daysPerYear
      && r.value.useEnergyMj == r.value.itemsPerYear as real * p.energyPerUseMj
  {
  }

  /** A reusable product needs just enough items to cover the year's uses,
      `ceil(total / L)` with `L` the effective lifespan, and pays use energy
      per use rather than per item. */
  lemma ReusableCounts(p: Product, usagePerDay: int, daysPerYear: int)
    requires p.kind == "reusable"
    ensures var r := AnnualImpact(p, usagePerDay, daysPerYear);
      var total := usagePerDay * daysPerYear;
      var n := r.value.itemsPerYear;
      && r.Some?
      && (n - 1) * EffectiveLifespan(p) < total <= n * EffectiveLifespan(p)
      && r.value.useEnergyMj == total as real * p.energyPerUseMj
  {
  }

  /** A reusable product whose lifespan is zero or negative counts as
      lasting one use, so it needs one item per use, like a disposable one. */
  lemma ReusableWithoutLifespan(p: Product, usagePerDay: int, daysPerYear: int)
    requires p.kind == "reusable" && p.lifespanUses <= 0
    ensures AnnualImpact(p, usagePerDay, daysPerYear).value.itemsPerYear == usagePerDay * daysPerYear
  {
    var total := usagePerDay * daysPerYear;
    var n := CeilDiv(total, 1);
    assert (n - 1) < total <= n;
  }

  /** For a non-negative number of uses a reusable product never needs more
      items than there are uses, and needs none only when there are no
      uses. */
  lemma ReusableAtMostDisposable(p: Product, usagePerDay: int, daysPerYear: int)
    requires p.kind == "reusable" && usagePerDay * daysPerYear >= 0
    ensures var n := AnnualImpact(p, usagePerDay, daysPerYear).value.itemsPerYear;
      0 <= n <= usagePerDay * daysPerYear && (n == 0 <==> usagePerDay * daysPerYear == 0)
  {
    CeilDivRange(usagePerDay * daysPerYear, EffectiveLifespan(p));
  }

  /** Rounding up a non-negative quotient by a divisor of at least 1 gives
      at most the dividend, and 0 only for 0. */
  lemma CeilDivRange(a: int, b: int)
    requires a >= 0 && b >= 1
    ensures 0 <= CeilDiv(a, b) <= a
    ensures CeilDiv(a, b) == 0 <==> a == 0
  {
    var q := CeilDiv(a, b);
    ScaleBounds(q, b);
    ScaleBounds(q - 1, b);
  }

  /** Scaling by a factor of at least 1 moves a number away from 0. */
  lemma ScaleBounds(x: int, b: int)
    requires b >= 1
    ensures x >= 0 ==> x * b >= x
    ensures x <= 0 ==> x * b <= x
  {
    assert x * b - x == x * (b - 1);
  }

  /** A product that is fully recycled leaves no waste. */
  lemma FullyRecycledLeavesNoWaste(p: Product, usagePerDay: int, daysPerYear: int)
    requires p.kind == "disposable" || p.kind == "reusable"
    requires p.recycleRatePercent == Some(100.0)
    ensures AnnualImpact(p, usagePerDay, daysPerYear).value.totalWasteG == 0.0
  {
  }

  /** A record without a recycle rate is treated as one whose rate is 0. */
  lemma MissingRateIsZero(p: Product, usagePerDay: int, daysPerYear: int)
    requires p.recycleRatePercent.None?
    ensures AnnualImpact(p, usagePerDay, daysPerYear)
         == AnnualImpact(p.(recycleRatePercent := Some(0.0)), usagePerDay, daysPerYear)
  {
    var q := p.(recycleRatePercent := Some(0.0));
    SameFractionSameImpact(p, q, usagePerDay, daysPerYear);
  }

  /** Two records that differ at most in how they state the recycle rate,
      and agree on the fraction it stands for, have the same impact. */
  lemma SameFractionSameImpact(p: Product, q: Product, usagePerDay: int, daysPerYear: int)
    requires p.name == q.name && p.kind == q.kind && p.energyMj == q.energyMj
    requires p.energyPerUseMj == q.energyPerUseMj && p.lifespanUses == q.lifespanUses && p.weightG == q.weightG
    requires RecycleFraction(p) == RecycleFraction(q)
    ensures AnnualImpact(p, usagePerDay, daysPerYear) == AnnualImpact(q, usagePerDay, daysPerYear)
  {
    var r, r' := AnnualImpact(p, usagePerDay, daysPerYear), AnnualImpact(q, usagePerDay, daysPerYear);
    assert r.Some? == r'.Some?;
    if r.Some? {
      assert r.value.itemsPerYear == r'.value.itemsPerYear;
      assert r.value == r'.value;
    }
  }

  /** The results of a category: one per product of known type, in the
      category's order. */
  function Impacts(products: seq<Product>, usagePerDay: int, daysPerYear: int): (rs: seq<Impact>)
    ensures |rs| <= |products|
    decreases |products|
  {
    if products == [] then []
    else
      var rest := Impacts(products[..|products| - 1], usagePerDay, daysPerYear);
      match AnnualImpact(products[|products| - 1], usagePerDay, daysPerYear)
      case None => rest
      case Some(r) => rest + [r]
  }

  /** The results of two runs of products are those of each, in order. */
  lemma {:induction false} ImpactsAppend(a: seq<Product>, b: seq<Product>, usagePerDay: int, daysPerYear: int)
    ensures Impacts(a + b, usagePerDay, daysPerYear)
         == Impacts(a, usagePerDay, daysPerYear) + Impacts(b, usagePerDay, daysPerYear)
    decreases |b|
  {
    if b == [] {
      assert a + b == a;
    } else {
      var b' := b[..|b| - 1];
      assert (a + b)[..|a + b| - 1] == a + b';
      assert (a + b)[|a + b| - 1] == b[|b| - 1];
      ImpactsAppend(a, b', usagePerDay, daysPerYear);
    }
  }

  /** Every result is the impact of some product of the category, and
      every product of known type contributes its impact. */
  lemma {:induction false} ImpactsMembers(products: seq<Product>, usagePerDay: int, daysPerYear: int)
    ensures forall r :: r in Impacts(products, usagePerDay, daysPerYear) ==>
      exists i :: 0 <= i < |products| && AnnualImpact(products[i], usagePerDay, daysPerYear) == Some(r)
    ensures forall i :: 0 <= i < |products| && AnnualImpact(products[i], usagePerDay, daysPerYear).Some? ==>
      AnnualImpact(products[i], usagePerDay, daysPerYear).value in Impacts(products, usagePerDay, daysPerYear)
    decreases |products|
  {
    if products != [] {
      var init := products[..|products| - 1];
      ImpactsMembers(init, usagePerDay, daysPerYear);
      forall i | 0 <= i < |init| ensures products[i] == init[i] { }
    }
  }

  /** When every product has a known type, the comparison keeps them all,
      result `i` belonging to product `i`. */
  lemma {:induction false} ImpactsAllKnown(products: seq<Product>, usagePerDay: int, daysPerYear: int)
    requires forall i :: 0 <= i < |products| ==> products[i].kind in ["disposable", "reusable"]
    ensures |Impacts(products, usagePerDay, daysPerYear)| == |products|
    ensures forall i :: 0 <= i < |products| ==>
      Some(Impacts(products, usagePerDay, daysPerYear)[i]) == AnnualImpact(products[i], usagePerDay, daysPerYear)
    decreases |products|
  {
    if products != [] {
      var init := products[..|products| - 1];
      ImpactsAllKnown(init, usagePerDay, daysPerYear);
    }
  }

  /** `compare_products`, with the product table given as a parameter:
      `None` for a category missing from it. */
  function Comparison(table: map<string, seq<Product>>, category: string, usagePerDay: int, daysPerYear: int): (rs: seq<Impact>)
    ensures category !in table ==> rs == []
    ensures category in table ==> rs == Impacts(table[category], usagePerDay, daysPerYear)
  {
    if category in table then Impacts(table[category], usagePerDay, daysPerYear) else []
  }

  /** `compare_products`: looks the category up, then appends the impact of
      each product in turn, skipping the empty ones. */
  method CompareProducts(table: map<string, seq<Product>>, category: string, usagePerDay: int, daysPerYear: int)
    returns (results: seq<Impact>)
    ensures results == Comparison(table, category, usagePerDay, daysPerYear)
  {
    if category !in table {
      return [];
    }
    var products := table[category];
    results := [];
    for k := 0 to |products|
      invariant results == Impacts(products[..k], usagePerDay, daysPerYear)
    {
      assert products[..k + 1][..k] == products[..k];
      var impact := AnnualImpact(products[k], usagePerDay, daysPerYear);
      if impact.Some? {
        results := results + [impact.value];
      }
    }
    assert products[..|products|] == products;
  }
}
