/**
 * The size list and its per-size pricing. Sizes are typed as one
 * comma-separated string; the form shows them joined with ", ".
 */
module Sizes {
  import opened Seqs
  import opened Text
  import opened Pricing
  import opened ProductDraft

  function TrimAll(xs: seq<string>): (r: seq<string>)
    ensures |r| == |xs|
    ensures forall i :: 0 <= i < |xs| ==> r[i] == Trim(xs[i])
  {
    if |xs| == 0 then [] else [Trim(xs[0])] + TrimAll(xs[1..])
  }

  predicate NonEmpty(s: string) {
    s != ""
  }

  /** Hook version: split on commas, trim each piece, drop empty pieces. */
  function ParseSizes(input: string): (r: seq<string>)
    ensures forall i :: 0 <= i < |r| ==> r[i] != ""
    ensures |r| <= |Split(input, ',')|
    ensures r == Filter(ParseSizesKeepingEmpty(input), NonEmpty)
  {
    Filter(TrimAll(Split(input, ',')), NonEmpty)
  }

  /** Rendered-form version: split on commas and trim, keeping empty pieces. */
  function ParseSizesKeepingEmpty(input: string): (r: seq<string>)
    ensures |r| == |Split(input, ',')| >= 1
    ensures forall i :: 0 <= i < |r| ==> r[i] == Trim(Split(input, ',')[i])
    ensures forall i :: 0 <= i < |r| ==> Trim(r[i]) == r[i]
  {
    var r := TrimAll(Split(input, ','));
    forall i | 0 <= i < |r| ensures Trim(r[i]) == r[i] {
      TrimIdempotent(Split(input, ',')[i]);
    }
    r
  }

  /** An empty size box gives the empty list in the hook version, one empty size in the rendered form. */
  lemma EmptyInput()
    ensures ParseSizes("") == []
    ensures ParseSizesKeepingEmpty("") == [""]
  {
    assert Blank("");
    assert Split("", ',') == [""];
  }

  /** A size as the user can enter it: non-empty, no white space at either end, no comma. */
  predicate WellFormedSize(s: string) {
    s != "" && !IsSpace(s[0]) && !IsSpace(s[|s| - 1]) && ',' !in s
  }

  /** The pieces of `sizes.join(', ')` between the commas. */
  function Spaced(sizes: seq<string>): (r: seq<string>)
    ensures |r| == |sizes|
    ensures |r| > 0 ==> r[0] == sizes[0]
    ensures forall i :: 1 <= i < |r| ==> r[i] == " " + sizes[i]
  {
    if |sizes| == 0 then [] else [sizes[0]] + SpaceEach(sizes[1..])
  }

  function SpaceEach(xs: seq<string>): (r: seq<string>)
    ensures |r| == |xs|
    ensures forall i :: 0 <= i < |xs| ==> r[i] == " " + xs[i]
  {
    if |xs| == 0 then [] else [" " + xs[0]] + SpaceEach(xs[1..])
  }

  /** `sizes.join(', ')`, the text shown in the sizes box. */
  function DisplaySizes(sizes: seq<string>): string {
    Join(Spaced(sizes), ',')
  }

  /** Re-parsing the displayed sizes (hook version) gives the same list back. */
  lemma ParseDisplayRoundTrip(sizes: seq<string>)
    requires forall i :: 0 <= i < |sizes| ==> WellFormedSize(sizes[i])
    ensures ParseSizes(DisplaySizes(sizes)) == sizes
  {
    if |sizes| == 0 {
      EmptyInput();
    } else {
      var pieces := Spaced(sizes);
      SpacedHasNoComma(sizes);
      SplitJoin(pieces, ',');
      assert Split(DisplaySizes(sizes), ',') == pieces;
      TrimSpaced(sizes);
      FilterAllKept(sizes, NonEmpty);
    }
  }

  /**
   * The form's parser reads the displayed sizes back as well, for any
   * non-empty list of well-formed sizes; for the empty list it gives [""].
   */
  lemma FormParseDisplayRoundTrip(sizes: seq<string>)
    requires |sizes| > 0
    requires forall i :: 0 <= i < |sizes| ==> WellFormedSize(sizes[i])
    ensures ParseSizesKeepingEmpty(DisplaySizes(sizes)) == sizes
  {
    var pieces := Spaced(sizes);
    SpacedHasNoComma(sizes);
    SplitJoin(pieces, ',');
    TrimSpaced(sizes);
  }

  /** The hook's parser is the form's parser with the empty tokens dropped. */
  lemma ParsersAgreeOnNonEmpty(input: string)
    requires forall i :: 0 <= i < |Split(input, ',')| ==> !Blank(Split(input, ',')[i])
    ensures ParseSizes(input) == ParseSizesKeepingEmpty(input)
  {
    TrimAllNonBlank(Split(input, ','));
    FilterAllKept(ParseSizesKeepingEmpty(input), NonEmpty);
  }

  lemma TrimAllNonBlank(xs: seq<string>)
    requires forall i :: 0 <= i < |xs| ==> !Blank(xs[i])
    ensures forall i :: 0 <= i < |xs| ==> NonEmpty(TrimAll(xs)[i])
  {
  }

  lemma SpacedHasNoComma(sizes: seq<string>)
    requires forall i :: 0 <= i < |sizes| ==> ',' !in sizes[i]
    ensures forall i :: 0 <= i < |sizes| ==> ',' !in Spaced(sizes)[i]
  {
    var pieces := Spaced(sizes);
    forall i | 0 <= i < |pieces| ensures ',' !in pieces[i] {
      if i > 0 {
        assert pieces[i] == " " + sizes[i];
      }
    }
  }

  lemma TrimSpaced(sizes: seq<string>)
    requires forall i :: 0 <= i < |sizes| ==> WellFormedSize(sizes[i])
    ensures TrimAll(Spaced(sizes)) == sizes
  {
    var pieces := Spaced(sizes);
    var trimmed := TrimAll(pieces);
    forall i | 0 <= i < |pieces| ensures trimmed[i] == sizes[i] {
      var s := sizes[i];
      if i > 0 {
        assert pieces[i] == " " + s;
        TrimLeadingSpace(s);
      } else {
        assert pieces[i] == s;
        TrimTrimmed(s);
      }
    }
    assert |trimmed| == |sizes|;
  }

  lemma TrimTrimmed(s: string)
    requires s != "" && !IsSpace(s[0]) && !IsSpace(s[|s| - 1])
    ensures Trim(s) == s
  {
    assert TrimStart(s) == s;
    assert TrimEnd(s) == s;
  }

  lemma TrimLeadingSpace(s: string)
    requires s != "" && !IsSpace(s[0]) && !IsSpace(s[|s| - 1])
    ensures Trim(" " + s) == s
  {
    var t := " " + s;
    assert t[1..] == s;
    assert TrimStart(s) == s;
    assert TrimStart(t) == s;
    assert TrimEnd(s) == s;
  }

  /**
   * Index of the first entry for `size` (as `Array.prototype.find` would
   * pick it), or the number of entries when there is none.
   */
  function FirstSizeIndex(entries: seq<SizePricing>, size: string): nat
  {
    FindFirst(entries, (e: SizePricing) => e.size == size)
  }

  /** The entry for one size token: the first existing entry for it, else a fresh seeded one. */
  function EntryFor(token: string, existing: seq<SizePricing>, common: PriceBlock, individual: bool): SizePricing
  {
    var k := FirstSizeIndex(existing, token);
    if k < |existing| then existing[k] else SizePricing(token, SeedPricing(common, individual))
  }

  /**
   * Rebuild the per-size pricing for a new size list: one entry per token, in
   * token order. A token that already had an entry keeps the first such entry
   * unchanged; a new token gets a copy of the common block (tiers unified in
   * unified mode); entries for sizes no longer listed disappear.
   */
  function Reconcile(tokens: seq<string>, existing: seq<SizePricing>, common: PriceBlock, individual: bool)
    : (r: seq<SizePricing>)
    ensures |r| == |tokens|
    ensures forall i :: 0 <= i < |r| ==> r[i].size == tokens[i]
    ensures forall i, j ::
              && 0 <= i < |r| && 0 <= j < |existing| && existing[j].size == tokens[i]
              && (forall k :: 0 <= k < j ==> existing[k].size != tokens[i])
              ==> r[i] == existing[j]
    ensures forall i :: 0 <= i < |r| && (forall j :: 0 <= j < |existing| ==> existing[j].size != tokens[i]) ==>
              && SameNonTierPrices(r[i].pricing, common)
              && (individual ==> Tiers(r[i].pricing) == Tiers(common))
              && (!individual ==> TiersFollowReseller(r[i].pricing))
  {
    seq(|tokens|, i requires 0 <= i < |tokens| => EntryFor(tokens[i], existing, common, individual))
  }

  /** Entries for sizes that are no longer listed are dropped. */
  lemma ReconcileDropsRemovedSizes(tokens: seq<string>, existing: seq<SizePricing>, common: PriceBlock, individual: bool, e: SizePricing)
    requires e in existing && e.size !in tokens
    ensures e !in Reconcile(tokens, existing, common, individual)
  {
  }

  /**
   * Editing the size list. The list is replaced by the parsed tokens; in
   * size-based mode the per-size pricing is rebuilt to match it, in common
   * mode it is left exactly as it was.
   */
  function HandleSizesChange(d: Draft, input: string): (d': Draft)
    ensures d'.sizes == ParseSizes(input)
    ensures d.pricingMode == Common ==> d'.sizeBasedPricing == d.sizeBasedPricing
    ensures d.pricingMode == SizeBased ==>
              |d'.sizeBasedPricing| == |d'.sizes| &&
              forall i :: 0 <= i < |d'.sizes| ==> d'.sizeBasedPricing[i].size == d'.sizes[i]
    ensures d.pricingMode == SizeBased ==>
              d'.sizeBasedPricing == Reconcile(d'.sizes, d.sizeBasedPricing, d.pricing, d.useIndividualResellerPricing)
    ensures d' == d.(sizes := d'.sizes, sizeBasedPricing := d'.sizeBasedPricing)
  {
    var tokens := ParseSizes(input);
    var entries := if d.pricingMode == SizeBased
      then Reconcile(tokens, d.sizeBasedPricing, d.pricing, d.useIndividualResellerPricing)
      else d.sizeBasedPricing;
    d.(sizes := tokens, sizeBasedPricing := entries)
  }

  /** The rendered form's size input: only the size list changes, empty pieces included. */
  function FormSizesChange(d: Draft, input: string): (d': Draft)
    ensures d'.sizes == ParseSizesKeepingEmpty(input)
    ensures d' == d.(sizes := d'.sizes)
  {
    d.(sizes := ParseSizesKeepingEmpty(input))
  }

  /** Every per-size block follows the unified reseller price. */
  predicate SizeTiersFollowReseller(entries: seq<SizePricing>) {
    forall i :: 0 <= i < |entries| ==> TiersFollowReseller(entries[i].pricing)
  }

  /**
   * In unified mode, a size edit keeps "every per-size tier equals that
   * size's reseller price" if it held before: reused entries are unchanged
   * and new ones are seeded unified.
   */
  lemma SizesChangeKeepsUnifiedEntries(d: Draft, input: string)
    requires !d.useIndividualResellerPricing
    requires SizeTiersFollowReseller(d.sizeBasedPricing)
    ensures SizeTiersFollowReseller(HandleSizesChange(d, input).sizeBasedPricing)
  {
    var d' := HandleSizesChange(d, input);
    if d.pricingMode == SizeBased {
      ReconcileKeepsUnified(d'.sizes, d.sizeBasedPricing, d.pricing);
    }
  }

  /** Reused entries keep their unified tiers and new entries are seeded unified. */
  lemma ReconcileKeepsUnified(tokens: seq<string>, existing: seq<SizePricing>, common: PriceBlock)
    requires SizeTiersFollowReseller(existing)
    ensures SizeTiersFollowReseller(Reconcile(tokens, existing, common, false))
  {
    var r := Reconcile(tokens, existing, common, false);
    forall i | 0 <= i < |r|
      ensures TiersFollowReseller(r[i].pricing)
    {
      var k := FirstSizeIndex(existing, tokens[i]);
      assert r[i] == EntryFor(tokens[i], existing, common, false);
    }
  }

  /**
   * The documented example: in size-based, unified mode with base reseller
   * price 80, adding size "M" yields an "M" entry whose reseller price and six
   * tiers are all 80.
   */
  lemma AddSizeSeedsUnifiedEntry(d: Draft)
    requires d.pricingMode == SizeBased && !d.useIndividualResellerPricing
    requires d.pricing.reseller == Finite(80.0)
    requires d.sizeBasedPricing == []
    ensures var d' := HandleSizesChange(d, "M");
            var e := d'.sizeBasedPricing;
            && |e| == 1 && e[0].size == "M"
            && e[0].pricing.reseller == Finite(80.0)
            && Tiers(e[0].pricing) == [Finite(80.0), Finite(80.0), Finite(80.0), Finite(80.0), Finite(80.0), Finite(80.0)]
  {
    assert "M" == DisplaySizes(["M"]);
    ParseDisplayRoundTrip(["M"]);
    var e := Reconcile(["M"], [], d.pricing, false);
    assert HandleSizesChange(d, "M").sizeBasedPricing == e;
    assert SameNonTierPrices(e[0].pricing, d.pricing) && TiersFollowReseller(e[0].pricing);
  }
}
