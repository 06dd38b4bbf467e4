/**
 * Submitting the product form: local pricing validation, cleaning of blank
 * image URLs and unnamed colours, and the multipart payload, modelled as an
 * ordered list of (field name, value) parts.
 */
module Submission {
  import opened Wrappers
  import opened Http
  import opened Seqs
  import opened Text
  import opened Pricing
  import opened ProductDraft
  import opened ListPages

  /** What a multipart part carries, before serialisation. */
  datatype PartValue =
    | Text(s: string)
    | Number(n: Num)
    | Flag(b: bool)
    | PricingJson(pricing: PriceBlock)
    | SizesJson(sizes: seq<string>)
    | ColorsJson(colors: seq<Color>)
    | FieldsJson(fields: map<string, string>)
    | Upload(file: LocalFile)

  datatype Part = Part(field: string, value: PartValue)

  datatype Request = Request(endpoint: Endpoint, parts: seq<Part>)

  /** Either the form refuses locally, or exactly one request goes out. */
  datatype Outcome = Rejected(message: string) | Send(request: Request)

  const PricingError: string := "All pricing fields are required and must be greater than 0."

  /** An image URL survives cleaning when something is left after trimming. */
  predicate KeptUrl(url: string) {
    Trim(url) != ""
  }

  /** A colour survives cleaning when its trimmed name is not empty. */
  predicate KeptColor(c: Color) {
    Trim(c.name) != ""
  }

  /** Cleaning keeps exactly the URLs that are not all white space. */
  lemma KeptUrlIffNotBlank(url: string)
    ensures KeptUrl(url) <==> !Blank(url)
  {
  }

  /** Drop blank image URLs and unnamed colours; every other field passes through. */
  function Clean(d: Draft): (c: Draft)
    ensures forall i :: 0 <= i < |c.images| ==> c.images[i] in d.images && KeptUrl(c.images[i])
    ensures forall i :: 0 <= i < |d.images| && KeptUrl(d.images[i]) ==> d.images[i] in c.images
    ensures forall i :: 0 <= i < |c.colors| ==> c.colors[i] in d.colors && KeptColor(c.colors[i])
    ensures forall i :: 0 <= i < |d.colors| && KeptColor(d.colors[i]) ==> d.colors[i] in c.colors
    ensures c.images == Filter(d.images, KeptUrl) && c.colors == Filter(d.colors, KeptColor)
    ensures c == d.(images := c.images, colors := c.colors)
  {
    d.(images := Filter(d.images, KeptUrl), colors := Filter(d.colors, KeptColor))
  }

  /** Cleaning a cleaned draft changes nothing. */
  lemma CleanIdempotent(d: Draft)
    ensures Clean(Clean(d)) == Clean(d)
  {
    FilterIdempotent(d.images, KeptUrl);
    FilterIdempotent(d.colors, KeptColor);
  }

  /** The field name of colour slot `k`'s files: `colorImages-<k>`. */
  function ColorImagesField(k: nat): string {
    "colorImages-" + Decimal(k)
  }

  function Texts(xs: seq<string>): (r: seq<PartValue>)
    ensures |r| == |xs|
  {
    if |xs| == 0 then [] else [Text(xs[0])] + Texts(xs[1..])
  }

  function Uploads(files: seq<LocalFile>): (r: seq<PartValue>)
    ensures |r| == |files|
  {
    if |files| == 0 then [] else [Upload(files[0])] + Uploads(files[1..])
  }

  function PartsOf(field: string, values: seq<PartValue>): (r: seq<Part>)
    ensures |r| == |values|
  {
    if |values| == 0 then [] else [Part(field, values[0])] + PartsOf(field, values[1..])
  }

  /** The scalar and JSON-encoded fields, in the order they are appended. */
  function ScalarParts(c: Draft): seq<Part> {
    [Part("name", Text(c.name)), Part("subCategoryId", Text(c.subCategoryId))]
    + SubSubCategoryPart(c)
    + DescriptiveParts(c)
  }

  /** `subSubCategoryId` is appended only when it is set and not empty. */
  function SubSubCategoryPart(c: Draft): seq<Part> {
    if c.subSubCategoryId.Some? && c.subSubCategoryId.value != ""
    then [Part("subSubCategoryId", Text(c.subSubCategoryId.value))] else []
  }

  function DescriptiveParts(c: Draft): seq<Part> {
    var v := c.showFor;
    [Part("description", Text(c.description)),
     Part("gst", Number(c.gst)),
     Part("pricing", PricingJson(c.pricing)),
     Part("stock", Number(c.stock)),
     Part("isActive", Flag(c.isActive)),
     Part("isAvailable", Flag(c.isAvailable)),
     Part("sizes", SizesJson(c.sizes)),
     Part("colors", ColorsJson(c.colors)),
     Part("dynamicFields", FieldsJson(c.dynamicFields)),
     Part("showForCustomer", Flag(v.customer)),
     Part("showForReseller", Flag(v.reseller)),
     Part("showForReseller1", Flag(v.reseller1)),
     Part("showForReseller2", Flag(v.reseller2)),
     Part("showForReseller3", Flag(v.reseller3)),
     Part("showForReseller4", Flag(v.reseller4)),
     Part("showForReseller5", Flag(v.reseller5)),
     Part("showForReseller6", Flag(v.reseller6)),
     Part("showForSpecial", Flag(v.special))]
  }

  /** The files of slots `start`, `start + 1`, ..., each under its slot's field name. */
  function ColorPartsFrom(slots: seq<seq<LocalFile>>, start: nat): seq<Part> {
    SlotParts(slots, start, ColorImagesField)
  }

  /** The files of slots `start`, `start + 1`, ..., each under the name `name` gives its slot. */
  function SlotParts(slots: seq<seq<LocalFile>>, start: nat, name: nat -> string): seq<Part> {
    if |slots| == 0 then []
    else PartsOf(name(start), Uploads(slots[0])) + SlotParts(slots[1..], start + 1, name)
  }

  /** The whole payload: scalar fields, then "images" (URLs, then staged files), then colour files. */
  function Payload(c: Draft, imageFiles: seq<LocalFile>, slots: seq<seq<LocalFile>>): seq<Part> {
    ScalarParts(c)
    + PartsOf("images", Texts(c.images) + Uploads(imageFiles))
    + ColorPartsFrom(slots, 0)
  }

  /** PUT to the product when editing one with an id, otherwise POST a new product. */
  function ProductEndpoint(isEditing: bool, productId: Option<string>): (e: Endpoint)
    ensures e.verb == Put <==> isEditing && productId.Some? && productId.value != ""
    ensures e.verb == Put ==> e.path == "/products/" + productId.value
    ensures e.verb != Put ==> e == Endpoint(Post, "/products")
  {
    if isEditing && productId.Some? && productId.value != "" then Endpoint(Put, "/products/" + productId.value)
    else Endpoint(Post, "/products")
  }
  /**
   * The product endpoint is the list pages' save endpoint under `/products`,
   * with an unset or empty product id (or no editing) counting as creating.
   */
  lemma ProductEndpointIsSaveEndpoint(isEditing: bool, productId: Option<string>)
    ensures ProductEndpoint(isEditing, productId)
         == SaveEndpoint("/products", if isEditing && productId.Some? && productId.value != "" then productId else None)
  {
  }


  /**
   * `handleSubmit`: refuse locally, sending nothing, when a price is NaN or
   * not above zero or GST is NaN or negative; otherwise send one request
   * carrying the cleaned draft and every staged file.
   */
  function Submit(f: Form, isEditing: bool, productId: Option<string>): (r: Outcome)
    ensures r.Rejected? <==> !ValidPricing(f.draft.pricing, f.draft.gst)
    ensures r.Rejected? ==> r.message == PricingError
    ensures r.Send? ==> r.request.endpoint == ProductEndpoint(isEditing, productId)
    ensures r.Send? ==> r.request.parts == Payload(Clean(f.draft), f.imageFiles, f.colorImageFiles)
  {
    if !ValidPricing(f.draft.pricing, f.draft.gst) then Rejected(PricingError)
    else Send(Request(ProductEndpoint(isEditing, productId), Payload(Clean(f.draft), f.imageFiles, f.colorImageFiles)))
  }

  /** The values sent under `field`, in payload order. */
  function Values(parts: seq<Part>, field: string): seq<PartValue> {
    if |parts| == 0 then []
    else (if parts[0].field == field then [parts[0].value] else []) + Values(parts[1..], field)
  }

  lemma {:induction false} ValuesAppend(a: seq<Part>, b: seq<Part>, field: string)
    ensures Values(a + b, field) == Values(a, field) + Values(b, field)
  {
    if |a| == 0 {
      assert a + b == b;
    } else {
      var ab := a + b;
      assert ab[0] == a[0];
      assert ab[1..] == a[1..] + b;
      var h := if a[0].field == field then [a[0].value] else [];
      assert Values(ab, field) == h + Values(a[1..] + b, field);
      ValuesAppend(a[1..], b, field);
      assert Values(a, field) == h + Values(a[1..], field);
    }
  }

  lemma ValuesOfThree(a: seq<Part>, b: seq<Part>, c: seq<Part>, field: string)
    ensures Values(a + b + c, field) == Values(a, field) + Values(b, field) + Values(c, field)
  {
    ValuesAppend(a + b, c, field);
    ValuesAppend(a, b, field);
  }

  lemma {:induction false} ValuesPartsOf(name: string, values: seq<PartValue>, field: string)
    ensures Values(PartsOf(name, values), field) == if name == field then values else []
  {
    if |values| > 0 {
      ValuesPartsOf(name, values[1..], field);
    }
  }

  /** No scalar field is called "images" or `colorImages-<k>`. */
  lemma ScalarPartsAvoid(c: Draft, k: nat)
    ensures Values(ScalarParts(c), "images") == []
    ensures Values(ScalarParts(c), ColorImagesField(k)) == []
  {
    var parts := ScalarParts(c);
    forall i | 0 <= i < |parts|
      ensures parts[i].field != "images" && parts[i].field != ColorImagesField(k)
    {
      ColorFieldLength(k);
      var n := parts[i].field;
      assert |n| < 13 || n[0] != 'c';
    }
    NoneNamed(parts, "images");
    NoneNamed(parts, ColorImagesField(k));
  }

  lemma ColorFieldLength(k: nat)
    ensures |ColorImagesField(k)| >= 13 && ColorImagesField(k)[0] == 'c'
  {
  }

  lemma {:induction false} NoneNamed(parts: seq<Part>, field: string)
    requires forall i :: 0 <= i < |parts| ==> parts[i].field != field
    ensures Values(parts, field) == []
  {
    if |parts| > 0 {
      NoneNamed(parts[1..], field);
    }
  }

  lemma ColorPartsNamed(slots: seq<seq<LocalFile>>, start: nat, k: nat)
    ensures Values(ColorPartsFrom(slots, start), ColorImagesField(k))
         == if start <= k < start + |slots| then Uploads(slots[k - start]) else []
  {
    forall j: nat ensures ColorImagesField(j) == ColorImagesField(k) <==> j == k {
      ColorFieldSame(j, k);
    }
    SlotPartsUnder(slots, start, k, ColorImagesField, ColorImagesField(k));
  }

  /** The parts sent under `field`, the name of slot `k` and of no other slot. */
  lemma {:induction false} SlotPartsUnder(slots: seq<seq<LocalFile>>, start: nat, k: nat, name: nat -> string, field: string)
    requires forall j: nat :: name(j) == field <==> j == k
    ensures Values(SlotParts(slots, start, name), field)
         == if start <= k < start + |slots| then Uploads(slots[k - start]) else []
  {
    if |slots| > 0 {
      var rest := SlotParts(slots[1..], start + 1, name);
      ValuesAfterSlot(name(start), Uploads(slots[0]), rest, field);
      SlotPartsUnder(slots[1..], start + 1, k, name, field);
      if start < k < start + |slots| {
        assert slots[1..][k - (start + 1)] == slots[k - start];
      }
    }
  }

  /** One slot's parts followed by the rest: its files count only under its own name. */
  lemma ValuesAfterSlot(name: string, files: seq<PartValue>, rest: seq<Part>, field: string)
    ensures Values(PartsOf(name, files) + rest, field)
         == (if name == field then files else []) + Values(rest, field)
  {
    ValuesAppend(PartsOf(name, files), rest, field);
    ValuesPartsOf(name, files, field);
  }


  /** Two slots share a field name exactly when they are the same slot. */
  lemma ColorFieldSame(a: nat, b: nat)
    ensures ColorImagesField(a) == ColorImagesField(b) <==> a == b
  {
    if ColorImagesField(a) == ColorImagesField(b) {
      ColorFieldInjective(a, b);
    }
  }

  /** Distinct slots have distinct field names. */
  lemma ColorFieldInjective(a: nat, b: nat)
    requires ColorImagesField(a) == ColorImagesField(b)
    ensures a == b
  {
    assert Decimal(a) == ColorImagesField(a)[12..] == ColorImagesField(b)[12..] == Decimal(b);
    DecimalInjective(a, b);
  }


  /**
   * The "images" parts are the cleaned URLs in order, followed by the staged
   * files in order.
   */
  lemma ImagesPartsOrder(c: Draft, imageFiles: seq<LocalFile>, slots: seq<seq<LocalFile>>)
    ensures Values(Payload(c, imageFiles, slots), "images") == Texts(c.images) + Uploads(imageFiles)
  {
    ScalarPartsAvoid(c, 0);
    ImagesPartsAfter(ScalarParts(c), Texts(c.images) + Uploads(imageFiles), slots);
  }

  lemma ImagesPartsAfter(scalars: seq<Part>, urls: seq<PartValue>, slots: seq<seq<LocalFile>>)
    requires Values(scalars, "images") == []
    ensures Values(scalars + PartsOf("images", urls) + ColorPartsFrom(slots, 0), "images") == urls
  {
    var cp := ColorPartsFrom(slots, 0);
    ValuesOfThree(scalars, PartsOf("images", urls), cp, "images");
    ValuesPartsOf("images", urls, "images");
    forall i | 0 <= i < |cp| ensures cp[i].field != "images" {
      ColorPartFieldShape(slots, 0, i);
    }
    NoneNamed(cp, "images");
  }


  lemma {:induction false} ColorPartFieldShape(slots: seq<seq<LocalFile>>, start: nat, i: nat)
    requires i < |ColorPartsFrom(slots, start)|
    ensures |ColorPartsFrom(slots, start)[i].field| >= 13
    ensures ColorPartsFrom(slots, start)[i].field[0] == 'c'
  {
    var head := PartsOf(ColorImagesField(start), Uploads(slots[0]));
    if i < |head| {
      PartsOfField(ColorImagesField(start), Uploads(slots[0]), i);
    } else {
      ColorPartFieldShape(slots[1..], start + 1, i - |head|);
    }
  }

  lemma {:induction false} PartsOfField(name: string, values: seq<PartValue>, i: nat)
    requires i < |values|
    ensures PartsOf(name, values)[i].field == name
  {
    if i > 0 {
      PartsOfField(name, values[1..], i - 1);
    }
  }

  /**
   * The parts named `colorImages-<k>` are exactly slot `k`'s staged files in
   * order (none when there is no slot `k`).
   */
  lemma ColorSlotParts(c: Draft, imageFiles: seq<LocalFile>, slots: seq<seq<LocalFile>>, k: nat)
    ensures Values(Payload(c, imageFiles, slots), ColorImagesField(k))
         == if k < |slots| then Uploads(slots[k]) else []
  {
    ScalarPartsAvoid(c, k);
    ColorSlotPartsAfter(ScalarParts(c), Texts(c.images) + Uploads(imageFiles), slots, k);
  }

  /** The same, for any scalar prefix that sends nothing under `colorImages-<k>`. */
  lemma ColorSlotPartsAfter(scalars: seq<Part>, urls: seq<PartValue>, slots: seq<seq<LocalFile>>, k: nat)
    requires Values(scalars, ColorImagesField(k)) == []
    ensures Values(scalars + PartsOf("images", urls) + ColorPartsFrom(slots, 0), ColorImagesField(k))
         == if k < |slots| then Uploads(slots[k]) else []
  {
    ColorFieldNotImages(k);
    ColorPartsNamed(slots, 0, k);
    SkipImages(scalars, urls, ColorPartsFrom(slots, 0), ColorImagesField(k),
      if k < |slots| then Uploads(slots[k]) else []);
  }

  lemma ColorFieldNotImages(k: nat)
    ensures ColorImagesField(k) != "images"
  {
    ColorFieldLength(k);
  }

  /** A field other than "images", absent from the scalar parts, is sent only by the parts after the images. */
  lemma SkipImages(scalars: seq<Part>, urls: seq<PartValue>, rest: seq<Part>, field: string, sent: seq<PartValue>)
    requires field != "images" && Values(scalars, field) == [] && Values(rest, field) == sent
    ensures Values(scalars + PartsOf("images", urls) + rest, field) == sent
  {
    ValuesOfThree(scalars, PartsOf("images", urls), rest, field);
    ValuesPartsOf("images", urls, field);
    assert [] + [] + sent == sent;
  }


  /** A sub-subcategory id is sent exactly when one is chosen (present and non-empty). */
  lemma SubSubCategorySentIffChosen(c: Draft, imageFiles: seq<LocalFile>, slots: seq<seq<LocalFile>>)
    ensures |Values(Payload(c, imageFiles, slots), "subSubCategoryId")|
         == if c.subSubCategoryId.Some? && c.subSubCategoryId.value != "" then 1 else 0
  {
    var field := "subSubCategoryId";
    var head := [Part("name", Text(c.name)), Part("subCategoryId", Text(c.subCategoryId))];
    ValuesOfThree(head, SubSubCategoryPart(c), DescriptiveParts(c), field);
    NoneNamed(head, field);
    DescriptiveAvoidsSubSub(c);
    OnlyScalarsNamed(ScalarParts(c), Texts(c.images) + Uploads(imageFiles), slots, field);
  }

  lemma DescriptiveAvoidsSubSub(c: Draft)
    ensures Values(DescriptiveParts(c), "subSubCategoryId") == []
  {
    var parts := DescriptiveParts(c);
    forall i | 0 <= i < |parts| ensures parts[i].field != "subSubCategoryId" {
      assert |parts[i].field| != 16 || parts[i].field[1] == 'h';
    }
    NoneNamed(parts, "subSubCategoryId");
  }

  /** A field that is neither "images" nor a colour-slot field is sent only by the scalar parts. */
  lemma OnlyScalarsNamed(scalars: seq<Part>, urls: seq<PartValue>, slots: seq<seq<LocalFile>>, field: string)
    requires field != "images" && (|field| < 13 || field[0] != 'c')
    ensures Values(scalars + PartsOf("images", urls) + ColorPartsFrom(slots, 0), field) == Values(scalars, field)
  {
    var cp := ColorPartsFrom(slots, 0);
    ValuesOfThree(scalars, PartsOf("images", urls), cp, field);
    ValuesPartsOf("images", urls, field);
    forall i | 0 <= i < |cp| ensures cp[i].field != field {
      ColorPartFieldShape(slots, 0, i);
    }
    NoneNamed(cp, field);
  }

}
