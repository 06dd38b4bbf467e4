/**
 * Category cascades: deriving the dependent dropdown lists from the already
 * fetched subcategories, on the product form and on the products page.
 */
module Cascade {
  import opened Wrappers
  import opened Seqs
  import opened ProductDraft

  datatype SubSubCategory = SubSubCategory(id: Option<string>, name: string, isActive: bool)

  datatype SubCategory = SubCategory(
    id: string,
    name: string,
    category: string,
    subCategories: seq<SubSubCategory>,
    isActive: bool)

  /** Index of the first subcategory with this id (`find`), or the list length when there is none. */
  function FirstWithId(subs: seq<SubCategory>, id: string): nat
  {
    FindFirst(subs, (s: SubCategory) => s.id == id)
  }

  /** `subs[j]` is the subcategory `find` returns for `id`. */
  predicate IsFirstWithId(subs: seq<SubCategory>, j: int, id: string) {
    0 <= j < |subs| && subs[j].id == id && forall i :: 0 <= i < j ==> subs[i].id != id
  }

  /**
   * The sub-subcategory list offered for a selected subcategory: empty when
   * nothing is selected or the id is unknown, otherwise the nested list of
   * the first subcategory with that id. It never fails.
   */
  function ResolveSubSubCategories(subs: seq<SubCategory>, subCategoryId: string): (r: seq<SubSubCategory>)
    ensures subCategoryId == "" ==> r == []
    ensures (forall j :: 0 <= j < |subs| ==> subs[j].id != subCategoryId) ==> r == []
    ensures forall j :: IsFirstWithId(subs, j, subCategoryId) && subCategoryId != "" ==> r == subs[j].subCategories
  {
    if subCategoryId == "" then []
    else
      var k := FirstWithId(subs, subCategoryId);
      if k < |subs| then subs[k].subCategories else []
  }

  /**
   * On a non-empty id, the product form's resolver and the products page's
   * subcategory select pick the same list out of the same subcategories.
   */
  lemma ResolveAgreesWithSelect(s: ProductsPage, subCategoryId: string)
    requires subCategoryId != ""
    ensures SelectSubCategory(s, subCategoryId).filteredSubSubcategories
         == ResolveSubSubCategories(s.filteredSubcategories, subCategoryId)
  {
  }

  /**
   * Choosing a subcategory on the product form stores its id only; an
   * earlier sub-subcategory choice is not cleared.
   */
  function FormSelectSubCategory(d: Draft, subCategoryId: string): (d': Draft)
    ensures d'.subCategoryId == subCategoryId
    ensures d'.subSubCategoryId == d.subSubCategoryId
    ensures d' == d.(subCategoryId := subCategoryId)
  {
    d.(subCategoryId := subCategoryId)
  }

  /** The products page's quick-create form, reduced to the fields its handlers treat specially. */
  datatype NewProduct = NewProduct(
    categoryId: string,
    subCategoryId: string,
    subSubCategoryId: string,
    stock: int)

  datatype ProductsPage = ProductsPage(
    allSubcategories: seq<SubCategory>,
    filteredSubcategories: seq<SubCategory>,
    filteredSubSubcategories: seq<SubSubCategory>,
    newProduct: NewProduct,
    currentPage: int,
    totalPages: int)

  /** The filter test of the category select: the subcategory names that category. */
  function OfCategory(category: string): SubCategory -> bool {
    (sc: SubCategory) => sc.category == category
  }

  /**
   * Choosing a category keeps the subcategories of that category, clears the
   * sub-subcategory list and resets both dependent ids.
   */
  function SelectCategory(s: ProductsPage, category: string): (s': ProductsPage)
    ensures forall i :: 0 <= i < |s'.filteredSubcategories| ==> s'.filteredSubcategories[i].category == category
    ensures forall i :: 0 <= i < |s.allSubcategories| && s.allSubcategories[i].category == category ==>
              s.allSubcategories[i] in s'.filteredSubcategories
    ensures s'.filteredSubcategories == Filter(s.allSubcategories, OfCategory(category))
    ensures s'.filteredSubSubcategories == []
    ensures s'.newProduct == s.newProduct.(categoryId := category, subCategoryId := "", subSubCategoryId := "")
    ensures s'.allSubcategories == s.allSubcategories
    ensures s'.currentPage == s.currentPage && s'.totalPages == s.totalPages
  {
    s.(filteredSubcategories := Filter(s.allSubcategories, OfCategory(category)),
       filteredSubSubcategories := [],
       newProduct := s.newProduct.(categoryId := category, subCategoryId := "", subSubCategoryId := ""))
  }

  /**
   * Choosing a subcategory looks it up among the filtered subcategories only:
   * the sub-subcategory list becomes its nested list, or empty when it is not
   * there; the sub-subcategory id is reset.
   */
  function SelectSubCategory(s: ProductsPage, subCategoryId: string): (s': ProductsPage)
    ensures (forall j :: 0 <= j < |s.filteredSubcategories| ==> s.filteredSubcategories[j].id != subCategoryId) ==>
              s'.filteredSubSubcategories == []
    ensures forall j :: IsFirstWithId(s.filteredSubcategories, j, subCategoryId) ==>
              s'.filteredSubSubcategories == s.filteredSubcategories[j].subCategories
    ensures s'.newProduct == s.newProduct.(subCategoryId := subCategoryId, subSubCategoryId := "")
    ensures s'.filteredSubcategories == s.filteredSubcategories && s'.allSubcategories == s.allSubcategories
  {
    var k := FirstWithId(s.filteredSubcategories, subCategoryId);
    var nested := if k < |s.filteredSubcategories| then s.filteredSubcategories[k].subCategories else [];
    s.(filteredSubSubcategories := nested,
       newProduct := s.newProduct.(subCategoryId := subCategoryId, subSubCategoryId := ""))
  }

  /**
   * A subcategory of another category is not found once a category has been
   * chosen, even when it exists in the full list.
   */
  lemma SubCategoryOfOtherCategoryNotFound(s: ProductsPage, category: string, sc: SubCategory)
    requires sc in s.allSubcategories && sc.category != category
    requires forall x :: x in s.allSubcategories && x.id == sc.id ==> x.category == sc.category
    ensures SelectSubCategory(SelectCategory(s, category), sc.id).filteredSubSubcategories == []
  {
  }

  /** `parseInt(value) || 0`: an unparsable stock (NaN, given as None) is stored as 0. */
  function SetStock(s: ProductsPage, parsed: Option<int>): (s': ProductsPage)
    ensures s'.newProduct.stock == parsed.GetOr(0)
    ensures s' == s.(newProduct := s.newProduct.(stock := s'.newProduct.stock))
  {
    s.(newProduct := s.newProduct.(stock := parsed.GetOr(0)))
  }

  /** A later stock input overrides an earlier one. */
  lemma SetStockLastWins(s: ProductsPage, first: Option<int>, second: Option<int>)
    ensures SetStock(SetStock(s, first), second) == SetStock(s, second)
  {
  }

  /** Result of a page change: the new page state and the page to fetch, if any. */
  datatype PageChange = PageChange(page: ProductsPage, fetch: Option<int>)

  /** Out-of-range page numbers are ignored; otherwise the page becomes current and is fetched. */
  function HandlePageChange(s: ProductsPage, p: int): (r: PageChange)
    ensures p < 1 || p > s.totalPages ==> r.page == s && r.fetch.None?
    ensures 1 <= p <= s.totalPages ==> r.page == s.(currentPage := p) && r.fetch == Some(p)
  {
    if p < 1 || p > s.totalPages then PageChange(s, None)
    else PageChange(s.(currentPage := p), Some(p))
  }

  /** Whatever page is requested, the current page stays within 1..totalPages if it was there. */
  lemma PageChangeKeepsRange(s: ProductsPage, p: int)
    requires 1 <= s.currentPage <= s.totalPages
    ensures 1 <= HandlePageChange(s, p).page.currentPage <= HandlePageChange(s, p).page.totalPages
  {
  }
}
