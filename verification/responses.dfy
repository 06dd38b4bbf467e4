/**
 * List responses arrive in several shapes (a bare array, or an object with
 * `data` and/or a named list field). Each page picks a list out of them with
 * its own order of preference.
 */
module Responses {
  import opened Wrappers

  /**
   * A list response: the request failed, a bare JSON array, or an object with
   * a `success` flag, an optional `data` array and an optional array under the
   * page's own name (`categories`, `notifications` or `policies`).
   */
  datatype Response<T> =
    | Failed
    | BareArray(items: seq<T>)
    | Envelope(success: bool, data: Option<seq<T>>, named: Option<seq<T>>)

  /**
   * Categories on the analytics page: `data` first, then a bare array, then
   * the named list when `success` is set; anything else, failures included,
   * gives the empty list.
   */
  function CategoriesFrom<T>(r: Response<T>): (xs: seq<T>)
    ensures r.Failed? ==> xs == []
    ensures r.BareArray? ==> xs == r.items
    ensures r.Envelope? && r.data.Some? ==> xs == r.data.value
    ensures r.Envelope? && r.data.None? ==> xs == if r.success && r.named.Some? then r.named.value else []
  {
    match r
    case Failed => []
    case BareArray(items) => items
    case Envelope(success, data, named) =>
      if data.Some? then data.value
      else if success && named.Some? then named.value
      else []
  }

  /** Subcategories on the analytics page: only an object's `data` counts (a bare array has none). */
  function SubCategoriesFrom<T>(r: Response<T>): (xs: seq<T>)
    ensures r.Envelope? ==> xs == r.data.GetOr([])
    ensures !r.Envelope? ==> xs == []
  {
    if r.Envelope? then r.data.GetOr([]) else []
  }

  /** One products response: an object's `data`, else a bare array, else nothing. */
  function ProductsIn<T>(r: Response<T>): (xs: seq<T>)
    ensures r.BareArray? ==> xs == r.items
    ensures r.Envelope? ==> xs == r.data.GetOr([])
    ensures r.Failed? ==> xs == []
  {
    match r
    case Failed => []
    case BareArray(items) => items
    case Envelope(_, data, _) => data.GetOr([])
  }

  /** Products on the analytics page: the fallback endpoint is consulted only when the first request fails. */
  function ProductsFrom<T>(first: Response<T>, fallback: Response<T>): (xs: seq<T>)
    ensures !first.Failed? ==> xs == ProductsIn(first)
    ensures first.Failed? ==> xs == ProductsIn(fallback)
  {
    if first.Failed? then ProductsIn(fallback) else ProductsIn(first)
  }

  /**
   * The notifications and policies pages: a bare array, else the named list,
   * else `data`, else empty. A failed fetch keeps the list shown before.
   */
  function ListFrom<T>(previous: seq<T>, r: Response<T>): (xs: seq<T>)
    ensures r.Failed? ==> xs == previous
    ensures r.BareArray? ==> xs == r.items
    ensures r.Envelope? && r.named.Some? ==> xs == r.named.value
    ensures r.Envelope? && r.named.None? ==> xs == r.data.GetOr([])
  {
    match r
    case Failed => previous
    case BareArray(items) => items
    case Envelope(_, data, named) =>
      if named.Some? then named.value else data.GetOr([])
  }

  /**
   * Pins the precedence order by comparing two normalisers on the same
   * response: given both lists, the analytics page takes `data` while the
   * list pages take the named list. Dafny discharges it from the
   * normalisers' contracts alone.
   */
  lemma PreferenceOrdersDiffer<T>(a: seq<T>, b: seq<T>)
    requires a != b
    ensures CategoriesFrom(Envelope(true, Some(a), Some(b))) == a
    ensures ListFrom([], Envelope(true, Some(a), Some(b))) == b
  {
  }

  /**
   * Compares the normalisers on the same bare-array response: the category
   * normaliser and the list pages read it alike, the subcategory normaliser
   * ignores it. Dafny discharges it from the normalisers' contracts alone.
   */
  lemma BareArrayRead<T>(previous: seq<T>, items: seq<T>)
    ensures CategoriesFrom(BareArray(items)) == items
    ensures ListFrom(previous, BareArray(items)) == items
    ensures SubCategoriesFrom(BareArray(items)) == []
    ensures ProductsFrom(BareArray(items), Failed) == items
  {
  }

  /**
   * Compares the normalisers on the same response carrying only `data`:
   * every normaliser that accepts an object reads `data`. Dafny discharges it
   * from the normalisers' contracts alone.
   */
  lemma DataOnlyRead<T>(previous: seq<T>, success: bool, data: seq<T>)
    ensures CategoriesFrom(Envelope(success, Some(data), None)) == data
    ensures ListFrom(previous, Envelope(success, Some(data), None)) == data
    ensures SubCategoriesFrom(Envelope(success, Some(data), None)) == data
    ensures ProductsFrom(Envelope(success, Some(data), None), Failed) == data
  {
  }

  /**
   * Pins the precedence of the first products request over the fallback by
   * comparing two fallbacks: once the first request succeeds, the fallback is
   * irrelevant. Dafny discharges it from the normaliser's contract alone.
   */
  lemma FallbackIgnoredAfterSuccess<T>(first: Response<T>, f1: Response<T>, f2: Response<T>)
    requires !first.Failed?
    ensures ProductsFrom(first, f1) == ProductsFrom(first, f2)
  {
  }
}
