/**
 * The analytics page: the category → subcategory → sub-subcategory → product
 * tree with its product counts, and the summary statistics.
 */
module Analytics {
  import opened Wrappers
  import opened Seqs
  import opened Responses

  /**
   * A reference field of a fetched record: missing, JSON `null`, a plain id
   * string, or a populated object carrying `_id`.
   */
  datatype Ref = Absent | Null | Id(id: string) | Populated(id: string)

  datatype Category = Category(id: string, name: string, isActive: bool)

  datatype SubSubCategory = SubSubCategory(id: string, name: string, isActive: bool)

  /** `category` may name the parent by id or by name, or hold it populated; some records carry `categoryId` instead. */
  datatype SubCategory = SubCategory(
    id: string, name: string, category: Ref, categoryId: Ref,
    subCategories: seq<SubSubCategory>, isActive: bool)

  /** Every hierarchy link of a product may come as a plain id or a populated object, under two field names. */
  datatype Product = Product(
    id: string, name: string,
    categoryId: Ref, category: Ref,
    subCategoryId: Ref, subCategory: Ref,
    subSubCategoryId: Ref, subSubCategory: Ref,
    isActive: bool, stock: Option<int>)

  // ---------------------------------------------------------------------------
  // Matching

  predicate InCategory(p: Product, id: string) {
    p.categoryId == Id(id) || p.category == Populated(id) || p.category == Id(id)
  }

  predicate InSubCategory(p: Product, id: string) {
    p.subCategoryId == Id(id) || p.subCategoryId == Populated(id)
    || p.subCategory == Populated(id) || p.subCategory == Id(id)
  }

  /** The sub-subcategory test with the `null` case read as "no match". */
  predicate InSubSub(p: Product, id: string) {
    p.subSubCategoryId == Id(id) || p.subSubCategoryId == Populated(id)
    || p.subSubCategory == Populated(id) || p.subSubCategory == Id(id)
  }

  /** No sub-subcategory: missing, `null` or the empty string. */
  predicate NoSubSub(p: Product) {
    p.subSubCategoryId.Absent? || p.subSubCategoryId.Null? || p.subSubCategoryId == Id("")
  }

  predicate InBranch(p: Product, c: Category, sc: SubCategory, ss: SubSubCategory) {
    InCategory(p, c.id) && InSubCategory(p, sc.id) && InSubSub(p, ss.id)
  }

  predicate DirectlyUnder(p: Product, c: Category, sc: SubCategory) {
    InCategory(p, c.id) && InSubCategory(p, sc.id) && NoSubSub(p)
  }

  /** A subcategory belongs to a category by id, by `categoryId`, by the category's name, or populated. */
  predicate AttachesTo(sc: SubCategory, c: Category) {
    sc.category == Id(c.id) || sc.categoryId == Id(c.id)
    || sc.category == Id(c.name) || sc.category == Populated(c.id)
  }

  function BranchProducts(c: Category, sc: SubCategory, ss: SubSubCategory, prods: seq<Product>): seq<Product> {
    Filter(prods, p => InBranch(p, c, sc, ss))
  }

  function DirectProducts(c: Category, sc: SubCategory, prods: seq<Product>): seq<Product> {
    Filter(prods, p => DirectlyUnder(p, c, sc))
  }

  function CategoryProducts(c: Category, prods: seq<Product>): seq<Product> {
    Filter(prods, p => InCategory(p, c.id))
  }

  function Attached(c: Category, subs: seq<SubCategory>): seq<SubCategory> {
    Filter(subs, sc => AttachesTo(sc, c))
  }

  // ---------------------------------------------------------------------------
  // Tree

  datatype Kind = CategoryNode | SubCategoryNode | SubSubCategoryNode | ProductNode

  /** A tree node; a product leaf has no children and carries the product's stock as its count. */
  datatype Node = Node(id: string, name: string, kind: Kind, children: seq<Node>, count: Option<int>, isActive: bool)

  function Leaf(p: Product): Node {
    Node(p.id, p.name, ProductNode, [], p.stock, p.isActive)
  }

  function Leaves(ps: seq<Product>): (ns: seq<Node>)
    ensures |ns| == |ps|
    ensures forall i :: 0 <= i < |ps| ==> ns[i] == Leaf(ps[i])
    ensures forall i :: 0 <= i < |ns| ==> ns[i].kind == ProductNode
  {
    seq(|ps|, i requires 0 <= i < |ps| => Leaf(ps[i]))
  }

  /** A sub-subcategory node lists exactly the products of its branch, and counts them. */
  function SubSubNode(c: Category, sc: SubCategory, ss: SubSubCategory, prods: seq<Product>): (n: Node)
    ensures n.kind == SubSubCategoryNode && n.id == ss.id && n.name == ss.name && n.isActive == ss.isActive
    ensures n.count.Some? && n.count.value == |n.children|
    ensures forall k :: 0 <= k < |prods| && InBranch(prods[k], c, sc, ss) ==> Leaf(prods[k]) in n.children
    ensures forall i :: 0 <= i < |n.children| ==>
      exists p :: p in prods && InBranch(p, c, sc, ss) && n.children[i] == Leaf(p)
    ensures n.children == Leaves(BranchProducts(c, sc, ss, prods))
    ensures n.count.value == |BranchProducts(c, sc, ss, prods)|
  {
    var inBranch := BranchProducts(c, sc, ss, prods);
    var leaves := Leaves(inBranch);
    assert forall i :: 0 <= i < |leaves| ==> inBranch[i] in prods && InBranch(inBranch[i], c, sc, ss) && leaves[i] == Leaf(inBranch[i]);
    assert forall k :: 0 <= k < |prods| && InBranch(prods[k], c, sc, ss) ==>
      exists i :: 0 <= i < |inBranch| && inBranch[i] == prods[k] && leaves[i] == Leaf(prods[k]);
    Node(ss.id, ss.name, SubSubCategoryNode, leaves, Some(|leaves|), ss.isActive)
  }

  function SubSubNodes(c: Category, sc: SubCategory, sss: seq<SubSubCategory>, prods: seq<Product>): (ns: seq<Node>)
    ensures |ns| == |sss|
    ensures forall i :: 0 <= i < |sss| ==> ns[i] == SubSubNode(c, sc, sss[i], prods)
  {
    seq(|sss|, i requires 0 <= i < |sss| => SubSubNode(c, sc, sss[i], prods))
  }

  /** `ssc.children?.length || 0` */
  function ChildCount(n: Node): int {
    |n.children|
  }

  /** The number of products in each of the given sub-subcategory branches, added up. */
  function BranchTotal(c: Category, sc: SubCategory, sss: seq<SubSubCategory>, prods: seq<Product>): nat {
    if |sss| == 0 then 0
    else |BranchProducts(c, sc, sss[0], prods)| + BranchTotal(c, sc, sss[1..], prods)
  }

  lemma {:induction false} ChildCountsAddUp(c: Category, sc: SubCategory, sss: seq<SubSubCategory>, prods: seq<Product>)
    ensures Sum(SubSubNodes(c, sc, sss, prods), ChildCount) == BranchTotal(c, sc, sss, prods)
  {
    if |sss| > 0 {
      var ns := SubSubNodes(c, sc, sss, prods);
      assert ns[1..] == SubSubNodes(c, sc, sss[1..], prods);
      ChildCountsAddUp(c, sc, sss[1..], prods);
    }
  }

  /** `totalProducts`: the child counts of the sub-subcategory nodes plus the direct products. */
  function TotalProducts(c: Category, sc: SubCategory, prods: seq<Product>): (t: nat)
    ensures t == BranchTotal(c, sc, sc.subCategories, prods) + |DirectProducts(c, sc, prods)|
  {
    ChildCountsAddUp(c, sc, sc.subCategories, prods);
    Sum(SubSubNodes(c, sc, sc.subCategories, prods), ChildCount) + |DirectProducts(c, sc, prods)|
  }

  /**
   * A subcategory node: its sub-subcategory nodes followed by the products
   * directly under it; its count is the sum of the branch counts plus the
   * direct products.
   */
  function SubCategoryNodeOf(c: Category, sc: SubCategory, prods: seq<Product>): (n: Node)
    ensures n.kind == SubCategoryNode && n.id == sc.id && n.name == sc.name && n.isActive == sc.isActive
    ensures |n.children| == |sc.subCategories| + |DirectProducts(c, sc, prods)|
    ensures forall i :: 0 <= i < |sc.subCategories| ==> n.children[i].kind == SubSubCategoryNode
    ensures forall i :: |sc.subCategories| <= i < |n.children| ==> n.children[i].kind == ProductNode
    ensures n.children[..|sc.subCategories|] == SubSubNodes(c, sc, sc.subCategories, prods)
    ensures n.children[|sc.subCategories|..] == Leaves(DirectProducts(c, sc, prods))
    ensures n.count.Some? && n.count.value == BranchTotal(c, sc, sc.subCategories, prods) + |DirectProducts(c, sc, prods)|
  {
    var subSubs := SubSubNodes(c, sc, sc.subCategories, prods);
    var direct := DirectProducts(c, sc, prods);
    var children := subSubs + Leaves(direct);
    AppendIndex(subSubs, Leaves(direct));
    Node(sc.id, sc.name, SubCategoryNode, children, Some(TotalProducts(c, sc, prods)), sc.isActive)
  }

  /**
   * A category node: one child per attached subcategory, in order; its count
   * is the number of products of the category, whatever their subcategory.
   */
  function CategoryNodeOf(c: Category, subs: seq<SubCategory>, prods: seq<Product>): (n: Node)
    ensures n.kind == CategoryNode && n.id == c.id && n.name == c.name && n.isActive == c.isActive
    ensures |n.children| == |Attached(c, subs)|
    ensures forall i :: 0 <= i < |n.children| ==> n.children[i] == SubCategoryNodeOf(c, Attached(c, subs)[i], prods)
    ensures forall k :: 0 <= k < |subs| && AttachesTo(subs[k], c) ==>
      exists i :: 0 <= i < |n.children| && n.children[i] == SubCategoryNodeOf(c, subs[k], prods)
    ensures n.count.Some? && n.count.value == |CategoryProducts(c, prods)|
  {
    var attached := Attached(c, subs);
    var children := seq(|attached|, i requires 0 <= i < |attached| => SubCategoryNodeOf(c, attached[i], prods));
    ChildrenCover(c, subs, attached, children, prods);
    Node(c.id, c.name, CategoryNode, children, Some(|CategoryProducts(c, prods)|), c.isActive)
  }

  /** Every subcategory that attaches to `c` has its node among `children`, one node per attached subcategory. */
  lemma ChildrenCover(c: Category, subs: seq<SubCategory>, attached: seq<SubCategory>, children: seq<Node>, prods: seq<Product>)
    requires forall k :: 0 <= k < |subs| && AttachesTo(subs[k], c) ==> subs[k] in attached
    requires |children| == |attached|
    requires forall i :: 0 <= i < |children| ==> children[i] == SubCategoryNodeOf(c, attached[i], prods)
    ensures forall k :: 0 <= k < |subs| && AttachesTo(subs[k], c) ==>
      exists i :: 0 <= i < |children| && children[i] == SubCategoryNodeOf(c, subs[k], prods)
  {
    forall k | 0 <= k < |subs| && AttachesTo(subs[k], c)
      ensures exists i :: 0 <= i < |children| && children[i] == SubCategoryNodeOf(c, subs[k], prods)
    {
      var i :| 0 <= i < |attached| && attached[i] == subs[k];
      assert children[i] == SubCategoryNodeOf(c, subs[k], prods);
    }
  }

  /** The category count does not depend on which subcategories were fetched. */
  lemma CategoryCountIgnoresSubCategories(c: Category, subs1: seq<SubCategory>, subs2: seq<SubCategory>, prods: seq<Product>)
    ensures CategoryNodeOf(c, subs1, prods).count == CategoryNodeOf(c, subs2, prods).count
  {
  }

  /** The category count is additive over the product list. */
  lemma CategoryCountAdds(c: Category, a: seq<Product>, b: seq<Product>)
    ensures CategoryNodeOf(c, [], a + b).count.value
         == CategoryNodeOf(c, [], a).count.value + CategoryNodeOf(c, [], b).count.value
  {
    FilterAppend(a, b, p => InCategory(p, c.id));
  }

  // ---------------------------------------------------------------------------
  // Placeholder categories

  /** The non-empty plain-id `category` references of the subcategories, in order. */
  function CategoryRefs(subs: seq<SubCategory>): (ids: seq<string>)
    ensures |ids| <= |subs|
    ensures forall i :: 0 <= i < |ids| ==> ids[i] != ""
    ensures forall k :: 0 <= k < |subs| && subs[k].category.Id? && subs[k].category.id != "" ==> subs[k].category.id in ids
  {
    if |subs| == 0 then []
    else
      var rest := CategoryRefs(subs[1..]);
      assert forall k :: 1 <= k < |subs| ==> subs[k] == subs[1..][k - 1];
      if subs[0].category.Id? && subs[0].category.id != "" then [subs[0].category.id] + rest else rest
  }

  /** References are collected part by part over a concatenation, so they keep the subcategories' order. */
  lemma {:induction false} CategoryRefsAppend(a: seq<SubCategory>, b: seq<SubCategory>)
    ensures CategoryRefs(a + b) == CategoryRefs(a) + CategoryRefs(b)
  {
    if |a| == 0 {
      assert a + b == b;
    } else {
      assert (a + b)[0] == a[0];
      assert (a + b)[1..] == a[1..] + b;
      CategoryRefsAppend(a[1..], b);
    }
  }

  /** One subcategory contributes its reference exactly when it is a non-empty plain id. */
  lemma CategoryRefsSingle(sc: SubCategory)
    ensures CategoryRefs([sc]) == if sc.category.Id? && sc.category.id != "" then [sc.category.id] else []
  {
    assert [sc][1..] == [];
  }

  function Placeholder(id: string): Category {
    Category(id, "Category " + id, true)
  }

  /**
   * When no category was fetched, one active placeholder per distinct
   * category id the subcategories mention, in order of first mention.
   */
  function Placeholders(subs: seq<SubCategory>): (cs: seq<Category>)
    ensures forall i :: 0 <= i < |cs| ==> cs[i] == Placeholder(cs[i].id) && cs[i].id != ""
    ensures forall i, j :: 0 <= i < j < |cs| ==> cs[i].id != cs[j].id
    ensures forall k :: 0 <= k < |subs| && subs[k].category.Id? && subs[k].category.id != "" ==>
      exists i :: 0 <= i < |cs| && cs[i].id == subs[k].category.id
    ensures forall i :: 0 <= i < |cs| ==> cs[i].id in CategoryRefs(subs)
    ensures forall i, j :: 0 <= i < j < |cs| ==>
      FirstIndex(CategoryRefs(subs), cs[i].id) < FirstIndex(CategoryRefs(subs), cs[j].id)
  {
    var refs := CategoryRefs(subs);
    var ids := Distinct(refs);
    DistinctAfterOrder(refs, {});
    var cs := seq(|ids|, i requires 0 <= i < |ids| => Placeholder(ids[i]));
    IdsCovered(refs, ids, cs);
    cs
  }

  /** Every id listed in `refs` is the id of some category in `cs`, which holds one category per entry of `ids`. */
  lemma IdsCovered(refs: seq<string>, ids: seq<string>, cs: seq<Category>)
    requires forall m :: 0 <= m < |refs| ==> refs[m] in ids
    requires |cs| == |ids| && forall i :: 0 <= i < |cs| ==> cs[i].id == ids[i]
    ensures forall x :: x in refs ==> exists i :: 0 <= i < |cs| && cs[i].id == x
  {
    forall x | x in refs ensures exists i :: 0 <= i < |cs| && cs[i].id == x {
      var m :| 0 <= m < |refs| && refs[m] == x;
      var i :| 0 <= i < |ids| && ids[i] == x;
      assert cs[i].id == x;
    }
  }

  function EffectiveCategories(cats: seq<Category>, subs: seq<SubCategory>): seq<Category> {
    if |cats| == 0 && |subs| > 0 then Placeholders(subs) else cats
  }

  /** The whole tree: one category node per fetched category, or per placeholder when none was fetched. */
  function BuildTree(cats: seq<Category>, subs: seq<SubCategory>, prods: seq<Product>): (tree: seq<Node>)
    ensures |cats| > 0 ==> |tree| == |cats|
    ensures |cats| > 0 ==> forall i :: 0 <= i < |cats| ==>
      tree[i].id == cats[i].id && tree[i].name == cats[i].name && tree[i].isActive == cats[i].isActive
    ensures |cats| == 0 && |subs| == 0 ==> tree == []
    ensures forall i :: 0 <= i < |tree| ==> tree[i].kind == CategoryNode
    ensures |tree| == |EffectiveCategories(cats, subs)|
    ensures forall i :: 0 <= i < |tree| ==> tree[i] == CategoryNodeOf(EffectiveCategories(cats, subs)[i], subs, prods)
    ensures |cats| == 0 && |subs| > 0 ==> |tree| == |Placeholders(subs)|
  {
    var cs := EffectiveCategories(cats, subs);
    seq(|cs|, i requires 0 <= i < |cs| => CategoryNodeOf(cs[i], subs, prods))
  }

  /**
   * With no fetched category, every subcategory naming a category id by a
   * plain string appears under a placeholder node "Category <id>".
   */
  lemma PlaceholderHoldsSubCategory(subs: seq<SubCategory>, prods: seq<Product>, k: nat)
    requires k < |subs| && subs[k].category.Id? && subs[k].category.id != ""
    ensures var tree := BuildTree([], subs, prods);
      exists i, j :: 0 <= i < |tree| && 0 <= j < |tree[i].children|
        && tree[i].id == subs[k].category.id
        && tree[i].name == "Category " + subs[k].category.id
        && tree[i].children[j].id == subs[k].id
  {
    var cs := Placeholders(subs);
    var tree := BuildTree([], subs, prods);
    var i :| 0 <= i < |cs| && cs[i].id == subs[k].category.id;
    assert AttachesTo(subs[k], cs[i]);
    var node := CategoryNodeOf(cs[i], subs, prods);
    assert tree[i] == node;
    var j :| 0 <= j < |node.children| && node.children[j] == SubCategoryNodeOf(cs[i], subs[k], prods);
    assert tree[i].children[j].id == subs[k].id;
  }

  // ---------------------------------------------------------------------------
  // Statistics

  datatype Stats = Stats(
    totalCategories: nat, activeCategories: nat,
    totalSubCategories: nat, activeSubCategories: nat,
    totalProducts: nat, activeProducts: nat,
    totalStock: int, outOfStock: nat)

  predicate CategoryActive(c: Category) { c.isActive }
  predicate SubCategoryActive(sc: SubCategory) { sc.isActive }
  predicate ProductActive(p: Product) { p.isActive }

  /** `p.stock || 0`: a missing stock reads as zero. */
  function StockOf(p: Product): int {
    p.stock.GetOr(0)
  }

  predicate SoldOut(p: Product) {
    StockOf(p) == 0
  }

  function GetStats(cats: seq<Category>, subs: seq<SubCategory>, prods: seq<Product>): (s: Stats)
    ensures s.totalCategories == |cats| && s.totalSubCategories == |subs| && s.totalProducts == |prods|
    ensures s.activeCategories <= s.totalCategories
    ensures s.activeSubCategories <= s.totalSubCategories
    ensures s.activeProducts <= s.totalProducts
    ensures s.outOfStock <= s.totalProducts
    ensures s.activeCategories == s.totalCategories <==> forall i :: 0 <= i < |cats| ==> cats[i].isActive
    ensures s.activeProducts == s.totalProducts <==> forall i :: 0 <= i < |prods| ==> prods[i].isActive
    ensures s.outOfStock == s.totalProducts <==> forall i :: 0 <= i < |prods| ==> StockOf(prods[i]) == 0
    ensures s.activeCategories == Count(cats, CategoryActive)
    ensures s.activeSubCategories == Count(subs, SubCategoryActive)
    ensures s.activeProducts == Count(prods, ProductActive)
    ensures s.totalStock == Sum(prods, StockOf)
    ensures s.outOfStock == Count(prods, SoldOut)
  {
    Stats(|cats|, Count(cats, CategoryActive),
          |subs|, Count(subs, SubCategoryActive),
          |prods|, Count(prods, ProductActive),
          Sum(prods, StockOf), Count(prods, SoldOut))
  }

  /**
   * With no negative stock, the total is non-negative, and it is zero
   * exactly when every product is out of stock.
   */
  lemma {:induction false} StockTotals(prods: seq<Product>)
    requires forall i :: 0 <= i < |prods| ==> StockOf(prods[i]) >= 0
    ensures Sum(prods, StockOf) >= 0
    ensures Sum(prods, StockOf) == 0 <==> Count(prods, SoldOut) == |prods|
  {
    if |prods| > 0 {
      StockTotals(prods[1..]);
      assert Count(prods, SoldOut) == (if SoldOut(prods[0]) then 1 else 0) + Count(prods[1..], SoldOut);
    }
  }

  /** The product statistics of two product lists together are the sums of their separate statistics. */
  lemma StatsAdd(cats: seq<Category>, subs: seq<SubCategory>, a: seq<Product>, b: seq<Product>)
    ensures var s, sa, sb := GetStats(cats, subs, a + b), GetStats(cats, subs, a), GetStats(cats, subs, b);
      && s.totalProducts == sa.totalProducts + sb.totalProducts
      && s.activeProducts == sa.activeProducts + sb.activeProducts
      && s.totalStock == sa.totalStock + sb.totalStock
      && s.outOfStock == sa.outOfStock + sb.outOfStock
  {
    CountAppend(a, b, ProductActive);
    CountAppend(a, b, SoldOut);
    SumAppend(a, b, StockOf);
  }

  /** Negative stock can cancel out: the total is zero although nothing is out of stock. */
  lemma NegativeStockHidesStock()
    ensures var prods := [Product("a", "A", Absent, Absent, Absent, Absent, Absent, Absent, true, Some(5)),
                          Product("b", "B", Absent, Absent, Absent, Absent, Absent, Absent, true, Some(-5))];
      GetStats([], [], prods).totalStock == 0 && GetStats([], [], prods).outOfStock == 0
  {
  }

  // ---------------------------------------------------------------------------
  // The page

  /** What the page shows after a fetch: the error panel, or the loaded lists with their tree. */
  datatype View =
    | ErrorPanel
    | Dashboard(categories: seq<Category>, subCategories: seq<SubCategory>, products: seq<Product>, tree: seq<Node>)

  /** Loading the page (with the corrected sub-subcategory test); the statistics read the fetched lists. */
  function FetchAll(
    catsRes: Response<Category>, subsRes: Response<SubCategory>,
    prodsRes: Response<Product>, fallbackRes: Response<Product>): (v: View)
    ensures v.Dashboard?
    ensures v.categories == CategoriesFrom(catsRes)
    ensures v.subCategories == SubCategoriesFrom(subsRes)
    ensures v.products == ProductsFrom(prodsRes, fallbackRes)
    ensures |v.categories| > 0 ==> |v.tree| == |v.categories|
    ensures v.tree == BuildTree(v.categories, v.subCategories, v.products)
  {
    var cats := CategoriesFrom(catsRes);
    var subs := SubCategoriesFrom(subsRes);
    var prods := ProductsFrom(prodsRes, fallbackRes);
    Dashboard(cats, subs, prods, BuildTree(cats, subs, prods))
  }

  function StatsOf(v: View): Stats
    requires v.Dashboard?
  {
    GetStats(v.categories, v.subCategories, v.products)
  }

  /** Placeholders show up in the tree but are not counted as categories. */
  lemma StatsIgnorePlaceholders(subsRes: Response<SubCategory>, prodsRes: Response<Product>, fallbackRes: Response<Product>, k: nat)
    requires var subs := SubCategoriesFrom(subsRes);
      k < |subs| && subs[k].category.Id? && subs[k].category.id != ""
    ensures var v := FetchAll(Failed, subsRes, prodsRes, fallbackRes);
      StatsOf(v).totalCategories == 0 && |v.tree| > 0
  {
    var subs := SubCategoriesFrom(subsRes);
    var cs := Placeholders(subs);
    var i :| 0 <= i < |cs| && cs[i].id == subs[k].category.id;
  }

  // ---------------------------------------------------------------------------
  // The sub-subcategory test as written

  /**
   * The sub-subcategory test as the page writes it: `None` when it throws.
   * A `null` id is an object to `typeof`, so reading `_id` from it throws
   * before the remaining alternatives are tried.
   */
  function InSubSubAsWritten(p: Product, id: string): (r: Option<bool>)
    ensures r.None? <==> p.subSubCategoryId.Null?
    ensures r.Some? ==> r.value == InSubSub(p, id)
  {
    if p.subSubCategoryId == Id(id) then Some(true)
    else if p.subSubCategoryId.Null? then None
    else Some(p.subSubCategoryId == Populated(id) || p.subSubCategory == Populated(id) || p.subSubCategory == Id(id))
  }

  /**
   * The branch filter as written: all three tests are evaluated for every
   * product, so one product with a `null` sub-subcategory id aborts it.
   */
  function BranchProductsAsWritten(c: Category, sc: SubCategory, ss: SubSubCategory, prods: seq<Product>): (r: Option<seq<Product>>)
    ensures r.None? <==> exists k :: 0 <= k < |prods| && prods[k].subSubCategoryId.Null?
    ensures r.Some? ==> r.value == BranchProducts(c, sc, ss, prods)
  {
    if |prods| == 0 then Some([])
    else
      var p := prods[0];
      var rest := BranchProductsAsWritten(c, sc, ss, prods[1..]);
      assert forall k :: 1 <= k < |prods| ==> prods[k] == prods[1..][k - 1];
      match InSubSubAsWritten(p, ss.id)
      case None => None
      case Some(subSub) =>
        if rest.None? then None
        else Some(if InCategory(p, c.id) && InSubCategory(p, sc.id) && subSub then [p] + rest.value else rest.value)
  }

  /**
   * The tree walk as written throws: some category it shows has an attached
   * subcategory with a sub-subcategory whose branch filter aborts.
   */
  predicate TreeWalkThrows(cats: seq<Category>, subs: seq<SubCategory>, prods: seq<Product>) {
    exists c, sc, ss :: c in EffectiveCategories(cats, subs) && sc in subs && AttachesTo(sc, c) && ss in sc.subCategories
      && BranchProductsAsWritten(c, sc, ss, prods).None?
  }

  /** Some product has a `null` sub-subcategory id. */
  predicate HasNullSubSub(prods: seq<Product>) {
    exists p :: p in prods && p.subSubCategoryId.Null?
  }

  /** The tree walk reaches at least one sub-subcategory filter. */
  predicate ReachesSubSub(cats: seq<Category>, subs: seq<SubCategory>) {
    exists c, sc :: c in EffectiveCategories(cats, subs) && sc in subs && AttachesTo(sc, c) && |sc.subCategories| > 0
  }

  /**
   * The walk throws exactly when it reaches some sub-subcategory filter while
   * some product has a `null` sub-subcategory id: the abort does not depend
   * on which branch the filter is for.
   */
  lemma TreeWalkThrowsIff(cats: seq<Category>, subs: seq<SubCategory>, prods: seq<Product>)
    ensures TreeWalkThrows(cats, subs, prods) <==> HasNullSubSub(prods) && ReachesSubSub(cats, subs)
  {
    if TreeWalkThrows(cats, subs, prods) {
      var c, sc, ss :| c in EffectiveCategories(cats, subs) && sc in subs && AttachesTo(sc, c) && ss in sc.subCategories
        && BranchProductsAsWritten(c, sc, ss, prods).None?;
      var k :| 0 <= k < |prods| && prods[k].subSubCategoryId.Null?;
      assert prods[k] in prods;
    }
    if HasNullSubSub(prods) && ReachesSubSub(cats, subs) {
      var p :| p in prods && p.subSubCategoryId.Null?;
      var c, sc :| c in EffectiveCategories(cats, subs) && sc in subs && AttachesTo(sc, c) && |sc.subCategories| > 0;
      var k :| 0 <= k < |prods| && prods[k] == p;
      var ss := sc.subCategories[0];
      assert BranchProductsAsWritten(c, sc, ss, prods).None?;
    }
  }

  /** A freshly mounted page: no error yet and nothing loaded. */
  function FreshPage(): View {
    Dashboard([], [], [], [])
  }

  /**
   * Loading the page as written, from the view shown before (mount, Retry
   * and Refresh Data all run the same load). The exception lands in the
   * error panel; since nothing ever clears the error, a page that shows the
   * panel keeps showing it whatever later loads return.
   */
  function FetchAllAsWritten(
    previous: View,
    catsRes: Response<Category>, subsRes: Response<SubCategory>,
    prodsRes: Response<Product>, fallbackRes: Response<Product>): (v: View)
    ensures previous.ErrorPanel? ==> v.ErrorPanel?
    ensures v.ErrorPanel? <==>
      || previous.ErrorPanel?
      || (HasNullSubSub(ProductsFrom(prodsRes, fallbackRes)) && ReachesSubSub(CategoriesFrom(catsRes), SubCategoriesFrom(subsRes)))
    ensures v.Dashboard? ==> v == FetchAll(catsRes, subsRes, prodsRes, fallbackRes)
  {
    var cats := CategoriesFrom(catsRes);
    var subs := SubCategoriesFrom(subsRes);
    var prods := ProductsFrom(prodsRes, fallbackRes);
    TreeWalkThrowsIff(cats, subs, prods);
    if previous.ErrorPanel? || TreeWalkThrows(cats, subs, prods) then ErrorPanel
    else FetchAll(catsRes, subsRes, prodsRes, fallbackRes)
  }

  /**
   * The example behind the finding: one category, one subcategory with one
   * sub-subcategory, and a product filed directly under the subcategory with
   * a `null` sub-subcategory id.
   */
  function ExampleCategory(): Category { Category("c1", "Shoes", true) }

  function ExampleSubCategory(): SubCategory {
    SubCategory("s1", "Running", Id("c1"), Absent, [SubSubCategory("t1", "Trail", true)], true)
  }

  function ExampleProduct(): Product {
    Product("p1", "Runner", Id("c1"), Absent, Id("s1"), Absent, Null, Absent, true, Some(3))
  }

  /** As written, loading the example shows only the error panel. */
  lemma NullSubSubHidesDashboard()
    ensures FetchAllAsWritten(FreshPage(), Envelope(true, Some([ExampleCategory()]), None),
                              Envelope(true, Some([ExampleSubCategory()]), None),
                              Envelope(true, Some([ExampleProduct()]), None), Failed).ErrorPanel?
  {
    var c, sc, p := ExampleCategory(), ExampleSubCategory(), ExampleProduct();
    assert c in [c] && sc in [sc] && AttachesTo(sc, c) && p in [p];
    assert HasNullSubSub([p]) && ReachesSubSub([c], [sc]);
  }

  /** The example product with its sub-subcategory id removed instead of `null`. */
  function FixedProduct(): Product {
    ExampleProduct().(subSubCategoryId := Absent)
  }

  /** On a fresh page, the example data with the `null` id removed loads the dashboard. */
  lemma FixedDataLoadsCleanly()
    ensures FetchAllAsWritten(FreshPage(), Envelope(true, Some([ExampleCategory()]), None),
                              Envelope(true, Some([ExampleSubCategory()]), None),
                              Envelope(true, Some([FixedProduct()]), None), Failed).Dashboard?
  {
    var q := FixedProduct();
    assert ProductsFrom(Envelope(true, Some([q]), None), Failed) == [q];
    assert forall p :: p in [q] ==> p == q;
    assert !HasNullSubSub([q]);
  }

  /**
   * Fixing the data does not help: after the example's failure, Retry on a
   * product list without any `null` id still shows the panel, although a
   * fresh page would show the dashboard for that same data.
   */
  lemma PanelSurvivesRetry()
    ensures var failed := FetchAllAsWritten(FreshPage(), Envelope(true, Some([ExampleCategory()]), None),
                                            Envelope(true, Some([ExampleSubCategory()]), None),
                                            Envelope(true, Some([ExampleProduct()]), None), Failed);
      var catsRes, subsRes, prodsRes := Envelope(true, Some([ExampleCategory()]), None),
                                        Envelope(true, Some([ExampleSubCategory()]), None),
                                        Envelope(true, Some([FixedProduct()]), None);
      && FetchAllAsWritten(failed, catsRes, subsRes, prodsRes, Failed).ErrorPanel?
      && FetchAllAsWritten(FreshPage(), catsRes, subsRes, prodsRes, Failed).Dashboard?
  {
    NullSubSubHidesDashboard();
    FixedDataLoadsCleanly();
  }

  /** With the corrected test, the example product is listed directly under its subcategory, which counts it. */
  lemma NullSubSubListedDirectly()
    ensures var c, sc, p := ExampleCategory(), ExampleSubCategory(), ExampleProduct();
      var node := SubCategoryNodeOf(c, sc, [p]);
      && |node.children| == 2
      && node.children[0] == SubSubNode(c, sc, sc.subCategories[0], [p])
      && node.children[1] == Leaf(p)
      && node.count.Some? && node.count.value == 1
      && BuildTree([c], [sc], [p]) == [CategoryNodeOf(c, [sc], [p])]
      && CategoryNodeOf(c, [sc], [p]).children == [node]
  {
    var c, sc, p := ExampleCategory(), ExampleSubCategory(), ExampleProduct();
    ExampleProductIsDirect();
    ExampleBranchIsEmpty();
    var node := SubCategoryNodeOf(c, sc, [p]);
    assert |sc.subCategories| == 1;
    assert node.children[0] == node.children[..1][0] == SubSubNodes(c, sc, sc.subCategories, [p])[0];
    assert node.children[1..] == Leaves([p]);
    assert node.children[1] == node.children[1..][0] == Leaves([p])[0] == Leaf(p);
    ExampleTree();
  }

  /** The corrected test places the example product directly under its subcategory. */
  lemma ExampleProductIsDirect()
    ensures DirectProducts(ExampleCategory(), ExampleSubCategory(), [ExampleProduct()]) == [ExampleProduct()]
  {
    var c, sc, p := ExampleCategory(), ExampleSubCategory(), ExampleProduct();
    assert DirectlyUnder(p, c, sc);
  }

  /** ... and in none of its sub-subcategory branches. */
  lemma ExampleBranchIsEmpty()
    ensures BranchTotal(ExampleCategory(), ExampleSubCategory(), ExampleSubCategory().subCategories, [ExampleProduct()]) == 0
  {
    var c, sc, p := ExampleCategory(), ExampleSubCategory(), ExampleProduct();
    assert !InBranch(p, c, sc, sc.subCategories[0]);
    assert BranchProducts(c, sc, sc.subCategories[0], [p]) == [];
    assert BranchTotal(c, sc, sc.subCategories[1..], [p]) == 0;
  }

  /** The example's tree has one category node, holding the example subcategory's node. */
  lemma ExampleTree()
    ensures var c, sc, p := ExampleCategory(), ExampleSubCategory(), ExampleProduct();
      && BuildTree([c], [sc], [p]) == [CategoryNodeOf(c, [sc], [p])]
      && CategoryNodeOf(c, [sc], [p]).children == [SubCategoryNodeOf(c, sc, [p])]
  {
    var c, sc, p := ExampleCategory(), ExampleSubCategory(), ExampleProduct();
    assert AttachesTo(sc, c);
    assert Attached(c, [sc]) == [sc];
  }
}
