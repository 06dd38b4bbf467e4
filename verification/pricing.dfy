/**
 * The pricing block of a product: MRP, customer, base reseller, six reseller
 * tiers and special price. Numbers are JavaScript numbers as typed into the
 * form, so a field may hold NaN (what `parseFloat` yields for junk input).
 */
module Pricing {

  datatype Num = Finite(value: real) | NaN

  /** Not NaN and strictly above zero: `!(isNaN(x) || x <= 0)`. */
  predicate Positive(n: Num) {
    n.Finite? && n.value > 0.0
  }

  /** Not NaN and not below zero: `!(isNaN(x) || x < 0)`. */
  predicate NonNegative(n: Num) {
    n.Finite? && n.value >= 0.0
  }

  /**
   * What a numeric input stores: the empty string becomes 0, anything else is
   * whatever `parseFloat` made of it (given here as `parsed`).
   */
  function NumberInput(raw: string, parsed: Num): (n: Num)
    ensures raw == "" ==> n == Finite(0.0)
    ensures raw != "" ==> n == parsed
  {
    if raw == "" then Finite(0.0) else parsed
  }

  datatype PriceBlock = PriceBlock(
    mrp: Num,
    customer: Num,
    reseller: Num,
    reseller1: Num,
    reseller2: Num,
    reseller3: Num,
    reseller4: Num,
    reseller5: Num,
    reseller6: Num,
    special: Num)

  /** All ten prices are zero, as in a fresh draft. */
  function ZeroPrices(): (p: PriceBlock)
    ensures forall n :: n in Prices(p) ==> n == Finite(0.0)
  {
    var z := Finite(0.0);
    PriceBlock(z, z, z, z, z, z, z, z, z, z)
  }

  /** The ten prices in declaration order. */
  function Prices(p: PriceBlock): seq<Num> {
    [p.mrp, p.customer, p.reseller, p.reseller1, p.reseller2, p.reseller3,
     p.reseller4, p.reseller5, p.reseller6, p.special]
  }

  /** The six reseller tiers, tier 1 first. */
  function Tiers(p: PriceBlock): seq<Num> {
    [p.reseller1, p.reseller2, p.reseller3, p.reseller4, p.reseller5, p.reseller6]
  }

  /** Unified reseller pricing: every tier equals the base reseller price. */
  predicate TiersFollowReseller(p: PriceBlock) {
    && p.reseller1 == p.reseller && p.reseller2 == p.reseller && p.reseller3 == p.reseller
    && p.reseller4 == p.reseller && p.reseller5 == p.reseller && p.reseller6 == p.reseller
  }

  /** Same MRP, customer, base reseller and special price. */
  predicate SameNonTierPrices(p: PriceBlock, q: PriceBlock) {
    p.mrp == q.mrp && p.customer == q.customer && p.reseller == q.reseller && p.special == q.special
  }

  /** Overwrite every reseller tier with the base reseller price. */
  function UnifyTiers(p: PriceBlock): (q: PriceBlock)
    ensures TiersFollowReseller(q)
    ensures SameNonTierPrices(p, q)
    ensures TiersFollowReseller(p) ==> q == p
  {
    var r := p.reseller;
    p.(reseller1 := r, reseller2 := r, reseller3 := r, reseller4 := r, reseller5 := r, reseller6 := r)
  }

  /** Set every reseller tier to `v`. */
  function SetAllTiers(p: PriceBlock, v: Num): (q: PriceBlock)
    ensures Tiers(q) == [v, v, v, v, v, v]
    ensures q.mrp == p.mrp && q.customer == p.customer && q.reseller == p.reseller && q.special == p.special
  {
    p.(reseller1 := v, reseller2 := v, reseller3 := v, reseller4 := v, reseller5 := v, reseller6 := v)
  }

  /**
   * The pricing a newly declared size starts with: a copy of the common block,
   * except that in unified mode every tier takes the base reseller price.
   */
  function SeedPricing(common: PriceBlock, individual: bool): (q: PriceBlock)
    ensures SameNonTierPrices(common, q)
    ensures individual ==> Tiers(q) == Tiers(common)
    ensures !individual ==> TiersFollowReseller(q)
  {
    if individual then common else UnifyTiers(common)
  }

  /**
   * The submit-time check: every price present and above zero, GST present
   * and not negative.
   */
  predicate ValidPricing(p: PriceBlock, gst: Num) {
    && Positive(p.mrp) && Positive(p.customer) && Positive(p.reseller)
    && Positive(p.reseller1) && Positive(p.reseller2) && Positive(p.reseller3)
    && Positive(p.reseller4) && Positive(p.reseller5) && Positive(p.reseller6)
    && Positive(p.special) && NonNegative(gst)
  }
}
