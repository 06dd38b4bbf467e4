/**
 * Loading a stored product into the form for editing. Stored values come
 * from JSON: a field is either a number/string/list or absent.
 */
module EditLoad {
  import opened Wrappers
  import opened Pricing
  import opened ProductDraft

  datatype StoredPricing = StoredPricing(
    mrp: Option<real>,
    customer: Option<real>,
    reseller: Option<real>,
    reseller1: Option<real>,
    reseller2: Option<real>,
    reseller3: Option<real>,
    reseller4: Option<real>,
    reseller5: Option<real>,
    reseller6: Option<real>,
    special: Option<real>)

  /** A product's subcategory: a plain id, or the populated subcategory object. */
  datatype SubCategoryRef = ById(id: string) | Populated(id: string, name: string)

  datatype StoredVisibility = StoredVisibility(
    customer: Option<bool>,
    reseller: Option<bool>,
    reseller1: Option<bool>,
    reseller2: Option<bool>,
    reseller3: Option<bool>,
    reseller4: Option<bool>,
    reseller5: Option<bool>,
    reseller6: Option<bool>,
    special: Option<bool>)

  datatype StoredProduct = StoredProduct(
    name: string,
    subCategoryId: SubCategoryRef,
    subSubCategoryId: Option<string>,
    description: Option<string>,
    gst: Option<real>,
    pricing: Option<StoredPricing>,
    stock: Option<real>,
    isActive: bool,
    isAvailable: Option<bool>,
    sizes: Option<seq<string>>,
    colors: Option<seq<Color>>,
    images: Option<seq<string>>,
    showFor: StoredVisibility,
    sizeBasedPricing: Option<seq<SizePricing>>)

  /** The stored tiers, tier 1 first; all absent when there is no pricing at all. */
  function StoredTiers(p: Option<StoredPricing>): (r: seq<Option<real>>)
    ensures |r| == 6
  {
    match p
    case None => [None, None, None, None, None, None]
    case Some(s) => [s.reseller1, s.reseller2, s.reseller3, s.reseller4, s.reseller5, s.reseller6]
  }

  function StoredReseller(p: Option<StoredPricing>): Option<real> {
    if p.Some? then p.value.reseller else None
  }

  /** `x || 0` on a stored number: absent (or 0) loads as 0. */
  function LoadPrice(x: Option<real>): (n: Num)
    ensures n.Finite?
    ensures x.Some? ==> n.value == x.value
    ensures x.None? ==> n.value == 0.0
  {
    Finite(x.GetOr(0.0))
  }

  /** Each price loads from its own stored field (`pricing.x || 0`); no stored pricing loads as all zeros. */
  function LoadPricing(p: Option<StoredPricing>): (q: PriceBlock)
    ensures forall n :: n in Prices(q) ==> n.Finite?
    ensures p.None? ==> q == ZeroPrices()
    ensures p.Some? ==>
      && q.mrp == LoadPrice(p.value.mrp) && q.customer == LoadPrice(p.value.customer)
      && q.reseller == LoadPrice(p.value.reseller) && q.special == LoadPrice(p.value.special)
      && q.reseller1 == LoadPrice(p.value.reseller1) && q.reseller2 == LoadPrice(p.value.reseller2)
      && q.reseller3 == LoadPrice(p.value.reseller3) && q.reseller4 == LoadPrice(p.value.reseller4)
      && q.reseller5 == LoadPrice(p.value.reseller5) && q.reseller6 == LoadPrice(p.value.reseller6)
  {
    var s := p.GetOr(StoredPricing(None, None, None, None, None, None, None, None, None, None));
    PriceBlock(
      LoadPrice(s.mrp), LoadPrice(s.customer), LoadPrice(s.reseller),
      LoadPrice(s.reseller1), LoadPrice(s.reseller2), LoadPrice(s.reseller3),
      LoadPrice(s.reseller4), LoadPrice(s.reseller5), LoadPrice(s.reseller6),
      LoadPrice(s.special))
  }

  /**
   * Individual reseller pricing is inferred when any stored tier differs
   * (strictly, so an absent tier differs from a present base price) from the
   * stored base reseller price.
   */
  function InferIndividual(p: Option<StoredPricing>): (b: bool)
    ensures b <==> exists k :: 0 <= k < 6 && StoredTiers(p)[k] != StoredReseller(p)
    ensures p.None? ==> !b
  {
    var t := StoredTiers(p);
    var r := StoredReseller(p);
    t[0] != r || t[1] != r || t[2] != r || t[3] != r || t[4] != r || t[5] != r
  }

  /** `showForX ?? true` for each of the nine flags: a missing flag loads as visible, a stored one as stored. */
  function LoadVisibility(v: StoredVisibility): (w: Visibility)
    ensures v.customer.None? ==> w.customer
    ensures v.reseller.None? ==> w.reseller
    ensures v.reseller1.None? ==> w.reseller1
    ensures v.reseller2.None? ==> w.reseller2
    ensures v.reseller3.None? ==> w.reseller3
    ensures v.reseller4.None? ==> w.reseller4
    ensures v.reseller5.None? ==> w.reseller5
    ensures v.reseller6.None? ==> w.reseller6
    ensures v.special.None? ==> w.special
    ensures v.customer.Some? ==> w.customer == v.customer.value
    ensures v.reseller.Some? ==> w.reseller == v.reseller.value
    ensures v.reseller1.Some? ==> w.reseller1 == v.reseller1.value
    ensures v.reseller2.Some? ==> w.reseller2 == v.reseller2.value
    ensures v.reseller3.Some? ==> w.reseller3 == v.reseller3.value
    ensures v.reseller4.Some? ==> w.reseller4 == v.reseller4.value
    ensures v.reseller5.Some? ==> w.reseller5 == v.reseller5.value
    ensures v.reseller6.Some? ==> w.reseller6 == v.reseller6.value
    ensures v.special.Some? ==> w.special == v.special.value
  {
    Visibility(
      v.customer.GetOr(true), v.reseller.GetOr(true),
      v.reseller1.GetOr(true), v.reseller2.GetOr(true), v.reseller3.GetOr(true),
      v.reseller4.GetOr(true), v.reseller5.GetOr(true), v.reseller6.GetOr(true),
      v.special.GetOr(true))
  }

  /** Number of staged-file slots after a load: one per stored colour, or one when there are none. */
  function LoadedSlotCount(colors: Option<seq<Color>>): (n: nat)
    ensures n >= 1
  {
    if colors.Some? && |colors.value| > 0 then |colors.value| else 1
  }

  /**
   * Replace the draft by the stored product and reset the colour file slots
   * to empty ones; the staged product images are kept.
   */
  function LoadForm(f: Form, p: StoredProduct): (f': Form)
    ensures f'.draft.useIndividualResellerPricing == InferIndividual(p.pricing)
    ensures f'.draft.pricingMode == SizeBased <==> p.sizeBasedPricing.Some? && |p.sizeBasedPricing.value| > 0
    ensures f'.draft.sizeBasedPricing == p.sizeBasedPricing.GetOr([])
    ensures f'.draft.subCategoryId == p.subCategoryId.id
    ensures f'.draft.colors == p.colors.GetOr([EmptyColor()])
    ensures |f'.colorImageFiles| == LoadedSlotCount(p.colors)
    ensures forall k :: 0 <= k < |f'.colorImageFiles| ==> f'.colorImageFiles[k] == []
    ensures f'.imageFiles == f.imageFiles
    ensures f'.draft.isAvailable == p.isAvailable.GetOr(true)
    ensures f'.draft.gst == LoadPrice(p.gst) && f'.draft.stock == LoadPrice(p.stock)
    ensures f'.draft.pricing == LoadPricing(p.pricing)
    ensures f'.draft.showFor == LoadVisibility(p.showFor)
    ensures f'.draft.name == p.name && f'.draft.isActive == p.isActive
    ensures f'.draft.subSubCategoryId == p.subSubCategoryId
    ensures p.description.Some? ==> f'.draft.description == p.description.value
    ensures p.description.None? ==> f'.draft.description == ""
    ensures p.images.Some? ==> f'.draft.images == p.images.value
    ensures p.images.None? ==> f'.draft.images == []
    ensures p.sizes.Some? ==> f'.draft.sizes == p.sizes.value
    ensures p.sizes.None? ==> f'.draft.sizes == []
    ensures f'.draft.dynamicFields == map[]
  {
    var d := Draft(
      name := p.name,
      subCategoryId := p.subCategoryId.id,
      subSubCategoryId := p.subSubCategoryId,
      description := p.description.GetOr(""),
      gst := LoadPrice(p.gst),
      pricing := LoadPricing(p.pricing),
      stock := LoadPrice(p.stock),
      isActive := p.isActive,
      isAvailable := p.isAvailable.GetOr(true),
      sizes := p.sizes.GetOr([]),
      colors := p.colors.GetOr([EmptyColor()]),
      images := p.images.GetOr([]),
      dynamicFields := map[],
      showFor := LoadVisibility(p.showFor),
      useIndividualResellerPricing := InferIndividual(p.pricing),
      pricingMode := if p.sizeBasedPricing.Some? && |p.sizeBasedPricing.value| > 0 then SizeBased else Common,
      sizeBasedPricing := p.sizeBasedPricing.GetOr([]));
    Form(d, f.imageFiles, seq(LoadedSlotCount(p.colors), _ => []))
  }

  /**
   * The inferred mode is consistent with the loaded prices: when unified is
   * inferred, every loaded tier equals the loaded base reseller price.
   */
  lemma {:induction false} LoadedDraftKeepsUnifiedTiers(f: Form, p: StoredProduct)
    ensures UnifiedTiersHold(LoadForm(f, p).draft)
  {
    var t := StoredTiers(p.pricing);
    var r := StoredReseller(p.pricing);
    if !InferIndividual(p.pricing) {
      assert t[0] == r && t[1] == r && t[2] == r && t[3] == r && t[4] == r && t[5] == r;
    }
  }

  /** A stored base price with tier 1 absent infers individual mode: absence is not equal to a number. */
  lemma MissingTierInfersIndividual(s: StoredPricing)
    requires s.reseller.Some? && s.reseller1.None?
    ensures InferIndividual(Some(s))
  {
    assert StoredTiers(Some(s))[0] != StoredReseller(Some(s));
  }

  /**
   * Editing starts a load only with a product id and the editing flag; a
   * failed fetch (`fetched` absent) leaves the form as it was.
   */
  function OnEditMount(f: Form, productId: Option<string>, isEditing: bool, fetched: Option<StoredProduct>): (f': Form)
    ensures !(isEditing && productId.Some? && productId.value != "") ==> f' == f
    ensures fetched.None? ==> f' == f
    ensures isEditing && productId.Some? && productId.value != "" && fetched.Some? ==> f' == LoadForm(f, fetched.value)
  {
    if isEditing && productId.Some? && productId.value != "" && fetched.Some? then LoadForm(f, fetched.value) else f
  }
}
