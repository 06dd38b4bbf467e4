/**
 * The product draft edited by the product form, together with the two
 * staging areas that live beside it: files picked for the product's own
 * images and, per colour slot, files picked for that colour.
 *
 * Two versions of the form exist in the source: the rendered component
 * (which has `stock`) and the hook-based one (which adds the pricing mode and
 * per-size pricing). `Draft` holds the union of their fields; every
 * operation touches only the fields its source touches.
 */
module ProductDraft {
  import opened Wrappers
  import opened Http
  import opened Pricing

  datatype PricingMode = Common | SizeBased

  /** One size's own pricing block, used in size-based mode. */
  datatype SizePricing = SizePricing(size: string, pricing: PriceBlock)

  /** A colour variant with the URLs of its already-stored images. */
  datatype Color = Color(name: string, images: seq<string>)

  /** The nine buyer-segment visibility flags. */
  datatype Visibility = Visibility(
    customer: bool,
    reseller: bool,
    reseller1: bool,
    reseller2: bool,
    reseller3: bool,
    reseller4: bool,
    reseller5: bool,
    reseller6: bool,
    special: bool)

  datatype Draft = Draft(
    name: string,
    subCategoryId: string,
    subSubCategoryId: Option<string>,
    description: string,
    gst: Num,
    pricing: PriceBlock,
    stock: Num,
    isActive: bool,
    isAvailable: bool,
    sizes: seq<string>,
    colors: seq<Color>,
    images: seq<string>,
    dynamicFields: map<string, string>,
    showFor: Visibility,
    useIndividualResellerPricing: bool,
    pricingMode: PricingMode,
    sizeBasedPricing: seq<SizePricing>)

  /** The whole form state: the draft plus the staged, not yet uploaded files. */
  datatype Form = Form(
    draft: Draft,
    imageFiles: seq<LocalFile>,
    colorImageFiles: seq<seq<LocalFile>>)

  function EmptyColor(): Color {
    Color("", [])
  }

  function AllVisible(): Visibility {
    Visibility(true, true, true, true, true, true, true, true, true)
  }

  /** Unified reseller mode keeps every tier equal to the base reseller price. */
  predicate UnifiedTiersHold(d: Draft) {
    !d.useIndividualResellerPricing ==> TiersFollowReseller(d.pricing)
  }

  /**
   * A fresh form: common pricing, unified reseller pricing, every price 0,
   * exactly one empty colour and no colour file slots yet.
   */
  function InitialForm(): (f: Form)
    ensures f.draft.pricingMode == Common && f.draft.sizeBasedPricing == []
    ensures !f.draft.useIndividualResellerPricing && UnifiedTiersHold(f.draft)
    ensures forall n :: n in Prices(f.draft.pricing) ==> n == Finite(0.0)
    ensures f.draft.gst == Finite(0.0) && f.draft.stock == Finite(0.0)
    ensures f.draft.colors == [EmptyColor()] && f.colorImageFiles == []
    ensures f.imageFiles == [] && f.draft.images == [] && f.draft.sizes == []
    ensures f.draft.isActive && f.draft.isAvailable && f.draft.showFor == AllVisible()
  {
    var d := Draft(
      name := "",
      subCategoryId := "",
      subSubCategoryId := None,
      description := "",
      gst := Finite(0.0),
      pricing := ZeroPrices(),
      stock := Finite(0.0),
      isActive := true,
      isAvailable := true,
      sizes := [],
      colors := [EmptyColor()],
      images := [],
      dynamicFields := map[],
      showFor := AllVisible(),
      useIndividualResellerPricing := false,
      pricingMode := Common,
      sizeBasedPricing := []);
    Form(d, [], [])
  }
}
