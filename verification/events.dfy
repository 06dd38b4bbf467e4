/**
 * The rendered product form as a state machine: every control the form
 * offers is an event, and `Step` applies the handler wired to it.
 */
module FormEvents {
  import opened Wrappers
  import opened Http
  import opened Pricing
  import opened ProductDraft
  import opened ResellerPricing
  import opened Sizes
  import opened Staging
  import opened EditLoad
  import opened Cascade

  datatype Event =
    | NumberChanged(field: NumericField, raw: string, parsed: Num)
    | ResellerModeChosen(useIndividual: bool)
    | MainResellerChanged(raw: string, parsed: Num)
    | SizesTyped(input: string)
    | SubCategoryChosen(id: string)
    | ColorAdded
    | ColorRemoved(i: nat)
    | ColorRenamed(i: nat, name: string)
    | ImageRemoved(i: nat, isFile: bool)
    | ImagesPicked(picked: Option<seq<LocalFile>>)
    | ColorImagesPicked(k: nat, picked: Option<seq<LocalFile>>)
    | ColorFileRemoved(k: nat, i: nat)
    | ColorUrlRemoved(k: nat, i: nat)
    | ProductLoaded(p: StoredProduct)

  /** The handler is defined for the event (the indices it dereferences exist). */
  predicate Defined(f: Form, e: Event) {
    match e
    case ColorRenamed(i, _) => i < |f.draft.colors|
    case ColorFileRemoved(k, _) => k < |f.colorImageFiles|
    case ColorUrlRemoved(k, _) => k < |f.draft.colors|
    case _ => true
  }

  /**
   * The form offers the event: colour controls exist only for shown colours,
   * and the six tier inputs are rendered only in individual mode.
   */
  predicate Offered(f: Form, e: Event) {
    && Defined(f, e)
    && match e
       case NumberChanged(field, _, _) => IsTier(field) ==> f.draft.useIndividualResellerPricing
       case ColorRemoved(i) => i < |f.draft.colors|
       case ColorImagesPicked(k, _) => k < |f.draft.colors|
       case _ => true
  }

  function Step(f: Form, e: Event): Form
    requires Defined(f, e)
  {
    match e
    case NumberChanged(field, raw, parsed) => f.(draft := SetNumber(f.draft, field, raw, parsed))
    case ResellerModeChosen(b) => f.(draft := ToggleResellerPricing(f.draft, b))
    case MainResellerChanged(raw, parsed) => f.(draft := MainResellerPriceChange(f.draft, raw, parsed))
    case SizesTyped(input) => f.(draft := FormSizesChange(f.draft, input))
    case SubCategoryChosen(id) => f.(draft := FormSelectSubCategory(f.draft, id))
    case ColorAdded => AddColor(f)
    case ColorRemoved(i) => RemoveColor(f, i)
    case ColorRenamed(i, name) => RenameColor(f, i, name)
    case ImageRemoved(i, isFile) => RemoveImage(f, i, isFile)
    case ImagesPicked(picked) => AddImageFiles(f, picked)
    case ColorImagesPicked(k, picked) => AddColorImageFiles(f, k, picked)
    case ColorFileRemoved(k, i) => RemoveColorImageFile(f, k, i)
    case ColorUrlRemoved(k, i) => RemoveColorImageUrl(f, k, i)
    case ProductLoaded(p) => LoadForm(f, p)
  }

  /** What every reachable form keeps. */
  predicate Invariant(f: Form) {
    UnifiedTiersHold(f.draft) && SlotsCoverColors(f)
  }

  /** Every offered event keeps the invariant. */
  lemma StepKeepsInvariant(f: Form, e: Event)
    requires Invariant(f) && Offered(f, e)
    ensures Invariant(Step(f, e))
  {
    if e.NumberChanged? || e.ResellerModeChosen? || e.MainResellerChanged? {
      PriceEventKeepsInvariant(f, e);
    } else if e.SizesTyped? || e.SubCategoryChosen? || e.ProductLoaded? {
      DraftEventKeepsInvariant(f, e);
    } else {
      StagingEventKeepsInvariant(f, e);
    }
  }

  /** The price controls rewrite the draft only, and keep the unified tiers when offered. */
  lemma PriceEventKeepsInvariant(f: Form, e: Event)
    requires Invariant(f) && Offered(f, e)
    requires e.NumberChanged? || e.ResellerModeChosen? || e.MainResellerChanged?
    ensures Invariant(Step(f, e))
  {
    var g := Step(f, e);
    assert g.colorImageFiles == f.colorImageFiles;
    match e
    case NumberChanged(field, raw, parsed) =>
      if !IsTier(field) {
        SetNumberKeepsTiers(f.draft, field, raw, parsed);
      }
    case ResellerModeChosen(b) =>
    case MainResellerChanged(raw, parsed) =>
  }

  /** Typing sizes, choosing a subcategory and loading a product. */
  lemma DraftEventKeepsInvariant(f: Form, e: Event)
    requires Invariant(f) && Offered(f, e)
    requires e.SizesTyped? || e.SubCategoryChosen? || e.ProductLoaded?
    ensures Invariant(Step(f, e))
  {
    match e
    case SizesTyped(input) =>
      assert Step(f, e).draft.colors == f.draft.colors;
    case SubCategoryChosen(id) =>
      assert Step(f, e).draft.colors == f.draft.colors;
    case ProductLoaded(p) =>
      LoadedDraftKeepsUnifiedTiers(f, p);
  }

  /** The colour and image controls leave the prices alone. */
  lemma StagingEventKeepsInvariant(f: Form, e: Event)
    requires Invariant(f) && Offered(f, e)
    requires !(e.NumberChanged? || e.ResellerModeChosen? || e.MainResellerChanged?)
    requires !(e.SizesTyped? || e.SubCategoryChosen? || e.ProductLoaded?)
    ensures Invariant(Step(f, e))
  {
    var g := Step(f, e);
    assert g.draft.pricing == f.draft.pricing;
    assert g.draft.useIndividualResellerPricing == f.draft.useIndividualResellerPricing;
  }

  /** The events are offered one after another, each by the form the previous ones produced. */
  predicate OfferedRun(f: Form, es: seq<Event>)
    decreases |es|
  {
    |es| == 0 || (Offered(f, es[0]) && OfferedRun(Step(f, es[0]), es[1..]))
  }

  function Run(f: Form, es: seq<Event>): Form
    requires OfferedRun(f, es)
    decreases |es|
  {
    if |es| == 0 then f else Run(Step(f, es[0]), es[1..])
  }

  /** Any sequence of offered events keeps the invariant. */
  lemma {:induction false} RunKeepsInvariant(f: Form, es: seq<Event>)
    requires Invariant(f) && OfferedRun(f, es)
    ensures Invariant(Run(f, es))
    decreases |es|
  {
    if |es| > 0 {
      StepKeepsInvariant(f, es[0]);
      RunKeepsInvariant(Step(f, es[0]), es[1..]);
    }
  }

  /** Every form reachable from the initial one keeps the invariant. */
  lemma ReachableKeepsInvariant(es: seq<Event>)
    requires OfferedRun(InitialForm(), es)
    ensures Invariant(Run(InitialForm(), es))
  {
    RunKeepsInvariant(InitialForm(), es);
  }

  /**
   * The tier guard matters: were a tier input offered in unified mode,
   * typing into it would break the invariant.
   */
  lemma TierInputInUnifiedModeBreaksInvariant()
    ensures Invariant(InitialForm())
    ensures !Offered(InitialForm(), NumberChanged(Reseller1, "5", Finite(5.0)))
    ensures !Invariant(Step(InitialForm(), NumberChanged(Reseller1, "5", Finite(5.0))))
  {
    var d := Step(InitialForm(), NumberChanged(Reseller1, "5", Finite(5.0))).draft;
    assert d.pricing.reseller1 != d.pricing.reseller;
  }
}
