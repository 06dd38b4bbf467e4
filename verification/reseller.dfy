/**
 * Reseller pricing on the product form: the unified/individual toggle, the
 * base reseller price input that fans out to the tiers in unified mode, and
 * the generic numeric inputs (`handleNumberChange`).
 */
module ResellerPricing {
  import opened Pricing
  import opened ProductDraft

  /**
   * Switch reseller mode. Going to unified overwrites the six tiers of the
   * common block with the base reseller price (entered tier values are lost);
   * going to individual keeps every price. Per-size blocks are not touched.
   */
  function ToggleResellerPricing(d: Draft, useIndividual: bool): (d': Draft)
    ensures d'.useIndividualResellerPricing == useIndividual
    ensures UnifiedTiersHold(d')
    ensures SameNonTierPrices(d.pricing, d'.pricing)
    ensures useIndividual ==> d'.pricing == d.pricing
    ensures d' == d.(useIndividualResellerPricing := useIndividual, pricing := d'.pricing)
  {
    var pricing := if useIndividual then d.pricing else UnifyTiers(d.pricing);
    d.(useIndividualResellerPricing := useIndividual, pricing := pricing)
  }

  /** Choosing the mode that is already chosen a second time changes nothing. */
  lemma ToggleIdempotent(d: Draft, useIndividual: bool)
    ensures ToggleResellerPricing(ToggleResellerPricing(d, useIndividual), useIndividual)
         == ToggleResellerPricing(d, useIndividual)
  {
  }

  /**
   * The base reseller price input. The typed value becomes the base reseller
   * price; in unified mode it also becomes every tier, in individual mode the
   * tiers keep their values. MRP, customer and special price never change.
   */
  function MainResellerPriceChange(d: Draft, raw: string, parsed: Num): (d': Draft)
    ensures d'.pricing.reseller == NumberInput(raw, parsed)
    ensures !d.useIndividualResellerPricing ==> TiersFollowReseller(d'.pricing)
    ensures d.useIndividualResellerPricing ==> Tiers(d'.pricing) == Tiers(d.pricing)
    ensures d'.pricing.mrp == d.pricing.mrp && d'.pricing.customer == d.pricing.customer
    ensures d'.pricing.special == d.pricing.special
    ensures d' == d.(pricing := d'.pricing)
  {
    var v := NumberInput(raw, parsed);
    var p := d.pricing.(reseller := v);
    d.(pricing := if d.useIndividualResellerPricing then p else SetAllTiers(p, v))
  }

  /** The numeric inputs wired to `handleNumberChange`. */
  datatype NumericField =
    | Gst | Stock | Mrp | Customer | Special
    | Reseller1 | Reseller2 | Reseller3 | Reseller4 | Reseller5 | Reseller6

  predicate IsTier(f: NumericField) {
    f.Reseller1? || f.Reseller2? || f.Reseller3? || f.Reseller4? || f.Reseller5? || f.Reseller6?
  }

  function NumericValue(d: Draft, f: NumericField): Num {
    match f
    case Gst => d.gst
    case Stock => d.stock
    case Mrp => d.pricing.mrp
    case Customer => d.pricing.customer
    case Special => d.pricing.special
    case Reseller1 => d.pricing.reseller1
    case Reseller2 => d.pricing.reseller2
    case Reseller3 => d.pricing.reseller3
    case Reseller4 => d.pricing.reseller4
    case Reseller5 => d.pricing.reseller5
    case Reseller6 => d.pricing.reseller6
  }

  /**
   * `handleNumberChange`: the named field stores the typed number ("" as 0);
   * every other numeric field, the base reseller price and all non-numeric
   * fields keep their values.
   */
  function SetNumber(d: Draft, f: NumericField, raw: string, parsed: Num): (d': Draft)
    ensures NumericValue(d', f) == NumberInput(raw, parsed)
    ensures forall g :: g != f ==> NumericValue(d', g) == NumericValue(d, g)
    ensures d'.pricing.reseller == d.pricing.reseller
    ensures d' == d.(gst := d'.gst, stock := d'.stock, pricing := d'.pricing)
  {
    var v := NumberInput(raw, parsed);
    var p := d.pricing;
    match f
    case Gst => d.(gst := v)
    case Stock => d.(stock := v)
    case Mrp => d.(pricing := p.(mrp := v))
    case Customer => d.(pricing := p.(customer := v))
    case Special => d.(pricing := p.(special := v))
    case Reseller1 => d.(pricing := p.(reseller1 := v))
    case Reseller2 => d.(pricing := p.(reseller2 := v))
    case Reseller3 => d.(pricing := p.(reseller3 := v))
    case Reseller4 => d.(pricing := p.(reseller4 := v))
    case Reseller5 => d.(pricing := p.(reseller5 := v))
    case Reseller6 => d.(pricing := p.(reseller6 := v))
  }

  /** A non-tier numeric input leaves the reseller tiers, and so the unified invariant, alone. */
  lemma SetNumberKeepsTiers(d: Draft, f: NumericField, raw: string, parsed: Num)
    requires !IsTier(f)
    ensures Tiers(SetNumber(d, f, raw, parsed).pricing) == Tiers(d.pricing)
    ensures UnifiedTiersHold(d) ==> UnifiedTiersHold(SetNumber(d, f, raw, parsed))
  {
    var d' := SetNumber(d, f, raw, parsed);
    assert NumericValue(d', Reseller1) == NumericValue(d, Reseller1);
    assert NumericValue(d', Reseller2) == NumericValue(d, Reseller2);
    assert NumericValue(d', Reseller3) == NumericValue(d, Reseller3);
    assert NumericValue(d', Reseller4) == NumericValue(d, Reseller4);
    assert NumericValue(d', Reseller5) == NumericValue(d, Reseller5);
    assert NumericValue(d', Reseller6) == NumericValue(d, Reseller6);
  }

  /**
   * The documented scenario: with base reseller price 100, switch to
   * individual, type 150 into tier 1, switch back to unified: tier 1 is 100
   * again and the 150 is gone.
   */
  lemma ToggleBackDiscardsTierEdit(d: Draft)
    requires d.pricing.reseller == Finite(100.0)
    ensures var d1 := ToggleResellerPricing(d, true);
            var d2 := SetNumber(d1, Reseller1, "150", Finite(150.0));
            var d3 := ToggleResellerPricing(d2, false);
            && d2.pricing.reseller1 == Finite(150.0)
            && d3.pricing.reseller1 == Finite(100.0)
            && Tiers(d3.pricing) == [Finite(100.0), Finite(100.0), Finite(100.0), Finite(100.0), Finite(100.0), Finite(100.0)]
  {
  }
}
