# Product-admin dashboard: a Dafny model of its form and hierarchy logic

This project models the state logic of a Next.js admin dashboard for a
product catalogue. The dashboard has no server logic of its own; what it
does decide locally is modelled here as pure functions over immutable
records:

- **The product draft form** (`ProductForm.tsx`, with the hook variant in
  `useProductFormLogic.ts` / `useProductFormHandlers.ts`). This covers:
  - the reseller price block, with its unified/individual toggle and the
    main-price fan-out;
  - numeric inputs ("" stored as 0);
  - both size parsers, and the per-size pricing reconciliation;
  - the four parallel staging lists: colours, per-colour file slots, image
    URLs and staged files;
  - the edit-mode load transform;
  - the sub-subcategory resolver;
  - submission: price validation, cleaning, the ordered multipart payload,
    and the choice of endpoint;
  - a state machine over all of the form's controls, with an invariant
    proved for every reachable form.
- **The products page**: the category → subcategory cascade, the stock
  input, and the pagination guard.
- **The analytics page**: normalisation of the response shapes, the
  category → subcategory → sub-subcategory → product tree with its counts,
  placeholder categories, and the summary statistics.
- **The notifications and policies pages**: list normalisation, edit,
  cancel, local delete, and endpoint selection.

Files:

| file | module | contents |
|---|---|---|
| wrappers.dfy | Wrappers, Http | `Option`, endpoints, picked files, form-data parts |
| seqs.dfy | Seqs | `filter`, `splice`, `reduce`, `new Set` on sequences |
| text.dfy | Text | `trim`, `split`/`join`, `slice`, decimal rendering |
| pricing.dfy | Pricing | numbers (`NaN` included), the ten-price block, validation |
| draft.dfy | ProductDraft | the draft record, the form state, the initial form |
| reseller.dfy | ResellerPricing | toggle, main reseller price, numeric inputs |
| sizes.dfy | Sizes | size parsing, display round trip, per-size pricing |
| staging.dfy | Staging | colours, image URLs, staged files and slots |
| load.dfy | EditLoad | stored product → draft |
| cascade.dfy | Cascade | sub-subcategory resolver, products-page cascade and paging |
| submit.dfy | Submission | validation, cleaning, payload, endpoint |
| events.dfy | FormEvents | the form as a state machine and its invariant |
| responses.dfy | Responses | response-shape normalisation |
| analytics.dfy | Analytics | tree, counts, placeholders, statistics |
| lists.dfy | ListPages | local delete, save/delete endpoints |
| notifications.dfy | Notifications | the notifications page |
| policies.dfy | Policies | the policies page |

Behaviour worth knowing (the model follows the code throughout):

- The payload of `ProductForm.tsx` has no `pricingMode` or
  `sizeBasedPricing` parts.
- The reseller toggle rewrites only the common price block, never the
  per-size blocks.
- The colour list and the file-slot list are not kept at equal length. The
  proved invariant is the weaker `|colours| <= |slots| + 1`.
- Price validation requires every price to be strictly positive.
- On the analytics page no load clears an earlier error, so once the error
  panel shows, Retry and Refresh Data cannot bring the dashboard back.
- `ProductForm.tsx`'s size input keeps empty tokens.
- Changing the subcategory on the form does not clear the sub-subcategory.

## Model

| member | source | states |
|---|---|---|
| Pricing.NumberInput | app/dashboard/products/components/ProductForm.tsx:304-306 | an empty input is stored as 0; otherwise the parsed number, `NaN` included |
| Pricing.UnifyTiers | app/dashboard/products/components/ProductForm.tsx:620-628 | afterwards all six tiers equal the base reseller price; mrp, customer, reseller and special are unchanged; a block that is already unified is returned as is |
| Pricing.SeedPricing | app/dashboard/products/components/useProductFormHandlers.ts:65-77 | a seeded block keeps the common non-tier prices; its tiers are the common tiers in individual mode, and the base reseller price in unified mode |
| ProductDraft.InitialForm | app/dashboard/products/components/useProductFormLogic.ts:11-38 | common pricing mode, no per-size entries, unified reseller mode with the invariant holding, all ten prices 0, exactly one empty colour, no file slots |
| ResellerPricing.ToggleResellerPricing | app/dashboard/products/components/ProductForm.tsx:616-636 | the flag takes the chosen value; the unified invariant holds afterwards; choosing individual leaves every price as it was; non-tier prices and every other field are unchanged |
| ResellerPricing.ToggleIdempotent | app/dashboard/products/components/ProductForm.tsx:616-636 | choosing the same mode twice is the same as choosing it once |
| ResellerPricing.ToggleBackDiscardsTierEdit | app/dashboard/products/components/ProductForm.tsx:616-636 | with reseller 100: choose individual, type 150 into tier 1, choose unified: tier 1 is 100 again |
| ResellerPricing.MainResellerPriceChange | app/dashboard/products/components/ProductForm.tsx:639-658 | reseller becomes the typed value ("" as 0); in unified mode all six tiers follow it, in individual mode they are untouched; mrp, customer and special never change |
| ResellerPricing.SetNumber | app/dashboard/products/components/ProductForm.tsx:304-324 | the named numeric field stores the typed number ("" as 0); every other numeric field and the base reseller price are unchanged; only gst, stock and pricing can differ |
| ResellerPricing.SetNumberKeepsTiers | app/dashboard/products/components/ProductForm.tsx:304-324 | editing a non-tier number keeps the six tiers, and with them the unified invariant |
| Sizes.ParseSizes | app/dashboard/products/components/useProductFormHandlers.ts:58 | no token is empty, and the tokens are exactly the form parser's trimmed pieces with the empty ones dropped, in input order and with repeats kept |
| Sizes.ParseSizesKeepingEmpty | app/dashboard/products/components/ProductForm.tsx:326-332 | token i is comma-separated piece i with its surrounding white space removed; one token per piece, empty ones kept |
| Sizes.FormParseDisplayRoundTrip | app/dashboard/products/components/ProductForm.tsx:326-332 | the form's parser reads a displayed non-empty list of well-formed sizes back unchanged |
| Sizes.ParsersAgreeOnNonEmpty | app/dashboard/products/components/useProductFormHandlers.ts:58 | when no comma-separated piece is blank, the hook's parser and the form's parser give the same tokens |
| Sizes.EmptyInput | app/dashboard/products/components/ProductForm.tsx:326-332 | an empty input gives no size for the hook's parser and the single size "" for the form's parser |
| Sizes.ParseDisplayRoundTrip | app/dashboard/products/components/useProductFormHandlers.ts:58 | sizes shown joined by ", " parse back to the same list, when each is non-empty, has no comma and is not padded with white space |
| Sizes.Reconcile | app/dashboard/products/components/useProductFormHandlers.ts:61-79 | one entry per token, in token order, with that size; a token matching existing entries reuses the first of them unchanged; a new size is seeded from the common block (non-tier prices copied; tiers copied when individual, equal to reseller when unified) |
| Sizes.ReconcileDropsRemovedSizes | app/dashboard/products/components/useProductFormHandlers.ts:62-64 | an entry whose size is no longer among the tokens is dropped |
| Sizes.HandleSizesChange | app/dashboard/products/components/useProductFormHandlers.ts:57-87 | the size list becomes the parsed tokens; in common mode the per-size pricing is unchanged; in size-based mode it is the reconciliation of the old entries with the new sizes, so one entry per size, in order, reusing or seeding its prices; nothing else changes |
| Sizes.FormSizesChange | app/dashboard/products/components/ProductForm.tsx:326-332 | only the size list changes, to the tokens with empty ones kept |
| Sizes.ReconcileKeepsUnified | app/dashboard/products/components/useProductFormHandlers.ts:61-79 | in unified mode, reconciling entries whose tiers all follow their reseller price gives entries that do too |
| Sizes.SizesChangeKeepsUnifiedEntries | app/dashboard/products/components/useProductFormHandlers.ts:61-79 | in unified mode, if every per-size block follows its reseller price before a size edit, it still does afterwards |
| Sizes.AddSizeSeedsUnifiedEntry | app/dashboard/products/components/useProductFormHandlers.ts:65-77 | size-based, unified mode, reseller 80: typing "M" creates one entry "M" whose six tiers are all 80 |
| Staging.AddColor | app/dashboard/products/components/useProductFormHandlers.ts:98-103 | one empty colour and one empty file slot are appended; nothing else changes |
| Staging.RemoveColor | app/dashboard/products/components/useProductFormHandlers.ts:112-122 | colour i and slot i are spliced out; a colour list left empty becomes one empty colour, while the slot list may stay empty |
| Staging.RenameColor | app/dashboard/products/components/ProductForm.tsx:335-346 | only colour i's name changes |
| Staging.RemoveImage | app/dashboard/products/components/useProductFormHandlers.ts:196-205 | index i is filtered out of the staged files or of the URLs, as chosen; the other list and the slots are untouched |
| Staging.AddImageFiles | app/dashboard/products/components/useProductFormHandlers.ts:189-194 | picked files are appended after the staged ones; no pick changes nothing |
| Staging.AddColorImageFiles | app/dashboard/products/components/useProductFormHandlers.ts:207-216 | slot k becomes its old files (none if missing) followed by the picked ones; every other slot is unchanged |
| Staging.RemoveColorImageFile | app/dashboard/products/components/ProductForm.tsx:489-495 | only slot k changes, losing its file at index i |
| Staging.RemoveColorImageUrl | app/dashboard/products/components/ProductForm.tsx:498-510 | only colour k's URL list changes, losing index i; its name and the other colours are untouched |
| Staging.InitialSlots | app/dashboard/products/components/useProductFormLogic.ts:22-38 | the initial form has one colour and no slot: the lists differ in length, but the slot bound holds |
| Staging.PickForShownColorNeedsNoPadding | app/dashboard/products/components/ProductForm.tsx:475-486 | under the slot bound, picking files for a shown colour finds the slot or the next one; the list never grows with holes |
| EditLoad.InferIndividual | app/dashboard/products/components/useProductFormLogic.ts:117-122 | individual mode is inferred exactly when some stored tier differs from the stored reseller price, absence included; with no stored pricing it is not |
| EditLoad.LoadPrice | app/dashboard/products/components/useProductFormLogic.ts:91-102 | a missing or zero stored price loads as 0 |
| EditLoad.LoadPricing | app/dashboard/products/components/useProductFormLogic.ts:91-102 | each of the ten prices loads from its own stored field, missing or zero as 0; no stored pricing loads as all zeros |
| EditLoad.LoadVisibility | app/dashboard/products/components/useProductFormLogic.ts:108-116 | each of the nine flags loads as stored, and as true when missing |
| EditLoad.LoadForm | app/dashboard/products/components/useProductFormLogic.ts:84-126 | name, isActive and the sub-subcategory id are copied; the subcategory is the stored id or the populated object's id; description, images and sizes default to "" / [] / []; gst, stock and the ten prices load as in LoadPrice and LoadPricing; the flags as in LoadVisibility; size-based mode iff the stored per-size list is present and non-empty, that list defaulting to []; the reseller mode is inferred; colours default to one empty colour; one empty slot per stored colour (at least one); staged product images are kept. The rendered form's own load (`ProductForm.tsx:206-262`) sets gst, stock, the prices, the flags, the reseller mode and the slot count the same way |
| EditLoad.LoadedDraftKeepsUnifiedTiers | app/dashboard/products/components/useProductFormLogic.ts:91-122 | whenever unified mode is inferred, the loaded tiers equal the loaded reseller price |
| EditLoad.MissingTierInfersIndividual | app/dashboard/products/components/useProductFormLogic.ts:117 | a stored reseller price with tier 1 absent infers individual mode |
| EditLoad.OnEditMount | app/dashboard/products/components/useProductFormLogic.ts:78-134 | a load happens only when editing with a product id and the fetch succeeded; otherwise the form is unchanged |
| Cascade.ResolveSubSubCategories | app/dashboard/products/components/ProductForm.tsx:177-203 | an empty or unknown subcategory id gives []; otherwise the first subcategory with that id gives its list |
| Cascade.ResolveAgreesWithSelect | app/dashboard/products/page.tsx:164-172 | for a non-empty id, the products page's select and the product form's resolver pick the same list from the same subcategories |
| Cascade.FormSelectSubCategory | app/dashboard/products/components/ProductForm.tsx:274-292 | choosing a subcategory stores its id and keeps the earlier sub-subcategory choice |
| Cascade.SelectCategory | app/dashboard/products/page.tsx:153-163 | the filtered subcategories are the `filter` of all subcategories by that category, so exactly those naming it, in order and with their multiplicity; sub-subcategories are cleared; the subcategory and sub-subcategory ids reset to "" |
| Cascade.SelectSubCategory | app/dashboard/products/page.tsx:164-172 | the sub-subcategories are the list of the first filtered subcategory with that id, or []; the sub-subcategory id resets to "" |
| Cascade.SubCategoryOfOtherCategoryNotFound | app/dashboard/products/page.tsx:153-172 | after choosing a category, a subcategory of another category is not found and yields no sub-subcategories |
| Cascade.SetStock | app/dashboard/products/page.tsx:187-191 | an unparsable stock input is stored as 0; nothing else changes |
| Cascade.SetStockLastWins | app/dashboard/products/page.tsx:187-191 | a later stock input overrides an earlier one |
| Cascade.HandlePageChange | app/dashboard/products/page.tsx:291-295 | a page outside 1..totalPages changes nothing and fetches nothing; otherwise the page is set and fetched |
| Cascade.PageChangeKeepsRange | app/dashboard/products/page.tsx:291-295 | a current page within range stays within range |
| Submission.KeptUrlIffNotBlank | app/dashboard/products/components/ProductForm.tsx:542 | a URL survives cleaning exactly when it is not all white space |
| Submission.Clean | app/dashboard/products/components/ProductForm.tsx:540-544 | the cleaned URLs and colours are the `filter` of the draft's by non-blankness, so exactly the non-blank ones in their order and multiplicity; every other field passes through |
| Submission.CleanIdempotent | app/dashboard/products/components/ProductForm.tsx:540-544 | cleaning a cleaned draft changes nothing |
| Submission.ProductEndpoint | app/dashboard/products/components/ProductForm.tsx:588-593 | PUT `/products/<id>` exactly when editing with a non-empty id, otherwise POST `/products` |
| Submission.ProductEndpointIsSaveEndpoint | app/dashboard/products/components/ProductForm.tsx:588-593 | the product endpoint is the list pages' save endpoint under `/products`, with a missing or empty id counting as creating |
| Submission.Submit | app/dashboard/products/components/ProductForm.tsx:513-598 | rejected with the pricing message, sending nothing, exactly when a price is NaN or not positive or gst is NaN or negative; otherwise one request with that endpoint and the cleaned payload |
| Submission.ImagesPartsOrder | app/dashboard/products/components/ProductForm.tsx:575-580 | the "images" parts are the cleaned URLs in order followed by the staged files in order |
| Submission.ColorSlotParts | app/dashboard/products/components/ProductForm.tsx:582-586 | the `colorImages-k` parts are exactly slot k's files in order, and none when there is no slot k |
| Submission.ColorPartsNamed | app/dashboard/products/components/ProductForm.tsx:582-586 | the part field names of different slots never collide |
| Submission.SubSubCategorySentIffChosen | app/dashboard/products/components/ProductForm.tsx:549-550 | exactly one `subSubCategoryId` part when a non-empty one is chosen, none otherwise |
| Submission.ValuesAppend | app/dashboard/products/components/ProductForm.tsx:546-586 | the parts named f in a concatenated payload are those of each half, in order |
| FormEvents.StepKeepsInvariant | app/dashboard/products/components/ProductForm.tsx:865 | every control the form offers keeps both invariants: unified mode ⇒ tiers equal reseller, and colours ≤ slots + 1 (tier inputs are rendered only in individual mode) |
| FormEvents.RunKeepsInvariant | app/dashboard/products/components/ProductForm.tsx:304-658 | any sequence of offered events keeps both invariants |
| FormEvents.ReachableKeepsInvariant | app/dashboard/products/components/useProductFormLogic.ts:11-38 | every form reachable from the initial one satisfies both invariants |
| FormEvents.TierInputInUnifiedModeBreaksInvariant | app/dashboard/products/components/ProductForm.tsx:865 | the tier-input guard is needed: a tier edit in unified mode would break the unified invariant |
| Responses.CategoriesFrom | app/dashboard/analytics/page.tsx:69-79 | `data` first, then a bare array, then the named list when `success`, else []; a failed fetch gives [] |
| Responses.SubCategoriesFrom | app/dashboard/analytics/page.tsx:81-89 | only an object's `data` counts; a bare array or a failure gives [] |
| Responses.ProductsFrom | app/dashboard/analytics/page.tsx:92-112 | the fallback endpoint is read only when the first request fails; each response gives its `data`, else a bare array, else [] |
| Responses.ListFrom | app/dashboard/notifications/page.tsx:37-44 | a bare array, else the named list, else `data`, else []; a failed fetch keeps the previous list |
| Responses.BareArrayRead | app/dashboard/analytics/page.tsx:69-112 | a bare array is read as the list by the category, products and list-page normalisers, and as [] for subcategories |
| Responses.DataOnlyRead | app/dashboard/analytics/page.tsx:69-112 | an object with only `data` is read as `data` by every normaliser |
| Responses.FallbackIgnoredAfterSuccess | app/dashboard/analytics/page.tsx:92-112 | once the first products request succeeds, the fallback response does not matter |
| Responses.PreferenceOrdersDiffer | app/dashboard/policies/page.tsx:27-31 | given both lists, the analytics order takes `data` while the list pages take the named list |
| Analytics.SubSubNode | app/dashboard/analytics/page.tsx:204-248 | the children are the leaves of the products matching category, subcategory and sub-subcategory, in product order and one per matching product; its count is the number of those products |
| Analytics.ChildCountsAddUp | app/dashboard/analytics/page.tsx:287 | the sum of the sub-subcategory child counts equals the number of matching products, branch by branch |
| Analytics.TotalProducts | app/dashboard/analytics/page.tsx:278-287 | the sum of the sub-subcategory nodes' child counts plus the direct products equals the number of products in the branches plus the direct products |
| Analytics.SubCategoryNodeOf | app/dashboard/analytics/page.tsx:200-298 | the children are one node per sub-subcategory, in order, followed by the leaves of the direct products (no sub-subcategory: absent, null or "") in order; count = sum of branch counts + direct count |
| Analytics.CategoryNodeOf | app/dashboard/analytics/page.tsx:183-334 | one child per attached subcategory, in order (attached by id, `categoryId`, name, or populated `_id`); count = products of the category |
| Analytics.CategoryCountIgnoresSubCategories | app/dashboard/analytics/page.tsx:302-332 | the category count does not depend on the subcategories |
| Analytics.CategoryCountAdds | app/dashboard/analytics/page.tsx:302-332 | the category count is additive over the product list |
| Analytics.CategoryRefs | app/dashboard/analytics/page.tsx:162 | only non-empty ids, and every non-empty plain-id category reference is among them |
| Analytics.CategoryRefsAppend | app/dashboard/analytics/page.tsx:162 | the references of a concatenation are those of each half, so they follow the subcategories' order |
| Analytics.CategoryRefsSingle | app/dashboard/analytics/page.tsx:162 | one subcategory contributes its reference exactly when it is a non-empty plain id |
| Analytics.Placeholders | app/dashboard/analytics/page.tsx:158-176 | one active placeholder "Category <id>" per distinct non-empty id, covering every reference, in order of first occurrence |
| Analytics.BuildTree | app/dashboard/analytics/page.tsx:150-183 | node i is the category node of category i, taken from the fetched categories or, when none was fetched and subcategories exist, from the placeholders; with neither, no node |
| Analytics.PlaceholderHoldsSubCategory | app/dashboard/analytics/page.tsx:158-192 | with no fetched category, each subcategory with a plain-id reference sits under the placeholder node "Category <id>" |
| Analytics.GetStats | app/dashboard/analytics/page.tsx:341-360 | the totals are the list lengths; the active counts count the active items; the total stock is the sum of stocks with a missing one as 0; out-of-stock counts the products whose stock reads as 0; each count equals its total exactly when every item qualifies |
| Analytics.StatsAdd | app/dashboard/analytics/page.tsx:341-360 | the product statistics of two lists together are the sums of their separate statistics |
| Analytics.StockTotals | app/dashboard/analytics/page.tsx:349-359 | with no negative stock, total stock ≥ 0, and it is 0 exactly when every product is out of stock |
| Analytics.NegativeStockHidesStock | app/dashboard/analytics/page.tsx:349-359 | stocks 5 and −5 give total stock 0 with nothing out of stock |
| Analytics.FetchAll | app/dashboard/analytics/page.tsx:61-141 | the page lists are the normalised responses, and the tree is built from exactly those lists |
| Analytics.StatsIgnorePlaceholders | app/dashboard/analytics/page.tsx:150-176 | with no fetched category, the tree shows placeholder nodes while the statistics count zero categories |
| Analytics.InSubSubAsWritten | app/dashboard/analytics/page.tsx:220-224 | throws exactly when the product's sub-subcategory id is null; otherwise it agrees with the corrected test |
| Analytics.BranchProductsAsWritten | app/dashboard/analytics/page.tsx:205-231 | fails exactly when some product has a null sub-subcategory id; otherwise it equals the corrected branch filter |
| Analytics.TreeWalkThrowsIff | app/dashboard/analytics/page.tsx:182-231 | the walk throws through the as-written branch filter exactly when it reaches some sub-subcategory while some product has a null sub-subcategory id, whichever branch that is |
| Analytics.FetchAllAsWritten | app/dashboard/analytics/page.tsx:61-148 | a load never clears an error: the panel shows exactly when it showed before the load, or when some product has a null sub-subcategory id and the walk reaches a sub-subcategory; otherwise the page is the corrected one |
| Analytics.FixedDataLoadsCleanly | app/dashboard/analytics/page.tsx:61-148 | on a fresh page, the example data with the null sub-subcategory id removed loads the dashboard |
| Analytics.PanelSurvivesRetry | app/dashboard/analytics/page.tsx:374-397 | once the panel shows, Retry or Refresh Data with responses that now load cleanly still shows it, while the same responses on a fresh page give the dashboard |
| Analytics.NullSubSubHidesDashboard | app/dashboard/analytics/page.tsx:220-221 | the concrete page on which the as-written test shows the error panel |
| Analytics.NullSubSubListedDirectly | app/dashboard/analytics/page.tsx:252-298 | on that page, the corrected test lists the product directly under its subcategory, with count 1 |
| ListPages.WithoutId | app/dashboard/notifications/page.tsx:66 | exactly the entries without the id survive, and none is lost unless it has the id |
| ListPages.WithoutIdAppend | app/dashboard/policies/page.tsx:48 | delete works part by part on a concatenation, so the survivors keep their order |
| ListPages.WithoutIdIdempotent | app/dashboard/policies/page.tsx:48 | deleting the same id twice is deleting it once |
| ListPages.WithoutIdCommutes | app/dashboard/notifications/page.tsx:66 | two deletes give the same list in either order |
| ListPages.SaveEndpoint | app/dashboard/notifications/page.tsx:75-80 | PUT `<base>/<id>` exactly when editing, otherwise POST `<base>` |
| ListPages.DeleteEndpoint | app/dashboard/policies/page.tsx:47 | DELETE `<base>/<id>` |
| ListPages.SaveAndDeleteShareThePath | app/dashboard/policies/page.tsx:47-60 | saving an edited item and deleting it address the same path, with PUT and DELETE |
| Notifications.Refresh | app/dashboard/notifications/page.tsx:34-48 | the list is the normalised response; a failed fetch keeps it and sets the fetch error; the form is untouched |
| Notifications.DateInput | app/dashboard/notifications/page.tsx:55-56 | "" when absent; otherwise the stored date's first 16 characters, or the whole of it when it is shorter |
| Notifications.DateInputIdempotent | app/dashboard/notifications/page.tsx:55-56 | truncating a truncated date changes nothing |
| Notifications.DateInputKeepsMinutes | app/dashboard/notifications/page.tsx:55 | an ISO timestamp keeps its date, hour and minute |
| Notifications.Edit | app/dashboard/notifications/page.tsx:50-60 | the form is filled from the notification, with truncated dates, and the picked file is cleared |
| Notifications.Body | app/dashboard/notifications/page.tsx:82-89 | the four text fields in order, then an image part exactly when a file was picked |
| Notifications.SubmitRequest | app/dashboard/notifications/page.tsx:75-95 | PUT `/notifications/<id>` exactly when editing, otherwise POST `/notifications`, with that body |
| Notifications.AfterSubmit | app/dashboard/notifications/page.tsx:97-104 | when saved, the list is re-fetched and the form returns to an empty create form; when refused, nothing changes |
| Notifications.AfterDelete | app/dashboard/notifications/page.tsx:62-70 | only a confirmed, accepted delete changes the page, and only its list |
| Notifications.EditThenSubmit | app/dashboard/notifications/page.tsx:50-89 | editing and saving targets that notification with no image part |
| Notifications.SaveReturnsToCreate | app/dashboard/notifications/page.tsx:97-99 | after a successful save, the next save is a POST |
| Notifications.Cancel | app/dashboard/notifications/page.tsx:153-166 | editing ends, the form is emptied and the picked image is dropped; the list and the error are untouched |
| Notifications.EditThenCancel | app/dashboard/notifications/page.tsx:153-166 | cancelling an edit leaves the page as if the edit never happened, and the next save is a POST of an empty form with no image |
| Notifications.DeleteKeepsEditing | app/dashboard/notifications/page.tsx:62-80 | deleting the notification being edited leaves the form editing it, so a later save goes to the deleted id |
| Policies.Refresh | app/dashboard/policies/page.tsx:23-37 | the list is the normalised response; a failed fetch keeps it and sets the fetch error |
| Policies.Edit | app/dashboard/policies/page.tsx:39-42 | the form receives the policy's title and content |
| Policies.SubmitRequest | app/dashboard/policies/page.tsx:57-79 | PUT `/policies/<id>` exactly when editing, otherwise POST `/policies`, with the form as body |
| Policies.AfterSubmit | app/dashboard/policies/page.tsx:66-84 | when saved, the list is re-fetched, editing ends and the form is emptied; when refused, nothing changes |
| Policies.AfterDelete | app/dashboard/policies/page.tsx:44-52 | only a confirmed, accepted delete changes the page, and only its list |
| Policies.EditThenSubmit | app/dashboard/policies/page.tsx:39-65 | editing and saving sends the policy's own title and content to its id |
| Policies.SaveReturnsToCreate | app/dashboard/policies/page.tsx:66-81 | after a successful save, the next save is a POST |
| Policies.Cancel | app/dashboard/policies/page.tsx:110-121 | editing ends and the form is emptied; the list and the error are untouched |
| Policies.EditThenCancel | app/dashboard/policies/page.tsx:110-121 | cancelling an edit leaves the page as if the edit never happened, and the next save is a POST of an empty form |
| Text.SplitJoin | app/dashboard/products/components/useProductFormHandlers.ts:58 | splitting on a separator and joining back gives the input; no piece contains the separator |
| Text.Trim | app/dashboard/products/components/ProductForm.tsx:542-543 | the result is a slice of the input with only white space before and after it, and it starts and ends with a non-space, so it is the input without its leading and trailing white space; it is empty exactly when the input is all white space |
| Text.TrimIdempotent | app/dashboard/products/components/ProductForm.tsx:327 | trimming twice is trimming once |
| Text.DecimalInjective | app/dashboard/products/components/ProductForm.tsx:584 | different slot indices render as different decimal strings |
| Seqs.FilterCounts | app/dashboard/analytics/page.tsx:205-231 | `filter` keeps every passing value as often as it occurs and drops every other value |
| Seqs.FilterAppend | app/dashboard/products/page.tsx:155 | `filter` over a concatenation is the concatenation of the filtered halves, so it keeps the order |
| Seqs.FilterSingle | app/dashboard/products/page.tsx:155 | a one-element list is kept exactly when its element passes |
| Seqs.CountAppend | app/dashboard/analytics/page.tsx:341-360 | counting over a concatenation adds the halves' counts |
| Seqs.RemoveAtIsExceptIndex | app/dashboard/products/components/ProductForm.tsx:364-374 | `splice(i, 1)` and filtering out index i agree for every non-negative index |
| Seqs.DistinctAfterOrder | app/dashboard/analytics/page.tsx:162 | `[...new Set(xs)]` lists the values in order of first occurrence |

## Left out

- Network requests, `confirm`/`alert`, timers, scrolling, navigation, loading
  flags and console logging are not modelled. A response is a parameter
  (`Response`), and whether a request succeeded is a boolean parameter.
- Number parsing is not modelled: `parseFloat` and `parseInt` appear as
  their result (`Num` or `Option<int>`). Prices are reals; JavaScript's
  floating point is not modelled.
- JSON `null` in stored products is not modelled: stored values are present
  or absent. It is modelled for analytics references, where it matters.
- Sizes, colours and other payload values are kept as structured values.
  Their `JSON.stringify` text is not modelled.
- `String(x)` of numbers in the payload is kept as the number.
- Negative indices to `splice` are not modelled (indices are `nat`). The
  rendered form only passes indices of shown items.
- Assigning past the end of the slot list leaves JavaScript holes. The model
  pads with empty slots instead; every reader treats a hole as empty.
- The URL-field handlers (`handleImageChange`, `addImageField`,
  `removeImageField`, `handleColorImageUrlChange`, `addColorImageField`,
  `removeColorImageField`) are left out: the rendered form never wires them.
- `handleInputChange`, `handleCheckboxChange` and the dynamic-field inputs
  are left out, except for the subcategory select (`FormSelectSubCategory`).
  They copy a value into a named field, with no logic.
- Some handlers build the next state from the state of the last render
  rather than from the pending state: in the product form,
  `handleNumberChange`, `handleSizesChange`, `handleColorChange` and
  `removeColorImageUrl` (from `formData`); on the products page, the stock,
  pricing and plain-field branches of `handleInputChange` (from
  `newProduct`), which also overwrite the `prev =>` update the same handler
  has just queued. Two updates batched into one render would lose the
  first. The model applies each event to the current form, which is what
  one event per render does.
- On the products page, the `pricing.*` and plain-field branches of
  `handleInputChange` are left out: they copy a parsed or raw value into a
  named field, with no logic.
- The hook's `pricingMode` switch and per-size price editing are not part of
  this model.
- In analytics, a sub-subcategory with an empty `_id` gets a random node id
  in the source; the model keeps the empty id.
- In analytics, a subcategory whose `category` is a populated object yields
  a placeholder keyed by that object in the source. The model draws
  placeholders from plain-id references only.
- Notifications.Cancel: clearing the file input's DOM value is not
  modelled; the picked file it shows is (`imageFile`).
- Analytics.FetchAllAsWritten: the error panel's text is the browser's
  exception message. The model shows the panel without a message.
- Notifications.Refresh, Policies.Refresh: the error text on a failed fetch
  is the thrown message when there is one. The model always uses the default
  text.
- `config/api.ts` (authentication and headers) is not part of this model.

## Findings

| source | as written | input that shows it | evidently intended | confidence | as-written member | corrected member |
|---|---|---|---|---|---|---|
| app/dashboard/analytics/page.tsx:220-221 | the sub-subcategory test reads `._id` of `p.subSubCategoryId` whenever `typeof` says `'object'`, which includes `null`; all three tests are evaluated for every product | one category, an attached subcategory with one sub-subcategory, and a product with `subSubCategoryId: null` (which line 268 expects) | a `null` id matches no sub-subcategory, and the product is listed as a direct product; and since no load clears the error, the panel stays up after Retry or Refresh Data even once the data loads cleanly | high that the exception occurs for that input; not executed | Analytics.TreeWalkThrowsIff, Analytics.FetchAllAsWritten, Analytics.NullSubSubHidesDashboard, Analytics.PanelSurvivesRetry | Analytics.FetchAll, Analytics.NullSubSubListedDirectly |
