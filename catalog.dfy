/**
 * The product catalog and the two views of it the storefront computes:
 * the category filter behind `showProducts` and the text search behind
 * `searchProducts`. Both are pure functions of the full catalog and the
 * user's argument.
 */
module Catalog {
  import opened Text
  import opened Seqs

  datatype Option<T> = None | Some(value: T)

  /**
   * One entry of a category's `category_products` in the catalog document:
   * `id`, `title`, `vendor`, `price` (a decimal string, kept uninterpreted),
   * `image` (a URL) and the optional `badge_text`.
   */
  datatype Product = Product(
    id: int,
    title: string,
    vendor: string,
    price: string,
    image: string,
    badgeText: Option<string>)

  /** One entry of the document's `categories`: `category_name` and `category_products`. */
  datatype Category = Category(categoryName: string, categoryProducts: seq<Product>)

  // ---------------------------------------------------------------------
  // Category filter (showProducts)
  // ---------------------------------------------------------------------

  /** The argument that means "every category", compared case-insensitively. */
  predicate IsAll(name: string)
    ensures IsAll(name) <==> |name| == 3 && name[0] in "aA" && name[1] in "lL" && name[2] in "lL"
  {
    Lower(name) == "all"
  }

  /** The category's name equals `name`, both lower-cased. */
  predicate HasName(c: Category, name: string)
    ensures HasName(c, name) ==> |c.categoryName| == |name|
    ensures c.categoryName == name ==> HasName(c, name)
  {
    Lower(c.categoryName) == Lower(name)
  }

  /** The list `showProducts(name)` makes visible, computed from the full catalog. */
  function FilterByCategory(catalog: seq<Category>, name: string): (r: seq<Category>)
    ensures IsAll(name) ==> r == catalog
    ensures !IsAll(name) ==> forall i :: 0 <= i < |r| ==> r[i] in catalog && HasName(r[i], name)
    ensures !IsAll(name) ==> forall i :: 0 <= i < |catalog| && HasName(catalog[i], name) ==> catalog[i] in r
  {
    if IsAll(name) then catalog else Filter(catalog, c => HasName(c, name))
  }

  /** The filtered view lists categories in catalog order. */
  lemma FilterByCategoryInOrder(catalog: seq<Category>, name: string)
    ensures IsSubsequence(FilterByCategory(catalog, name), catalog)
  {
    if IsAll(name) {
      SubsequenceReflexive(catalog);
    } else {
      FilterIsSubsequence(catalog, c => HasName(c, name));
    }
  }

  /**
   * The filter works category by category: on a concatenated catalog it is the
   * concatenation of the two results. With FilterByCategoryOne this determines
   * the result completely.
   */
  lemma FilterByCategoryAppend(a: seq<Category>, b: seq<Category>, name: string)
    ensures FilterByCategory(a + b, name) == FilterByCategory(a, name) + FilterByCategory(b, name)
  {
    if !IsAll(name) {
      FilterAppend(a, b, c => HasName(c, name));
    }
  }

  /** On a single category: kept exactly when the argument is "all" or names it. */
  lemma FilterByCategoryOne(c: Category, name: string)
    ensures FilterByCategory([c], name) == if IsAll(name) || HasName(c, name) then [c] else []
  {
  }

  /** A name that matches no category yields an empty view, not an error. */
  lemma FilterByCategoryNoMatch(catalog: seq<Category>, name: string)
    requires !IsAll(name)
    requires forall i :: 0 <= i < |catalog| ==> !HasName(catalog[i], name)
    ensures FilterByCategory(catalog, name) == []
  {
    FilterKeepsNone(catalog, c => HasName(c, name));
  }

  /** Arguments that differ only in ASCII case select the same categories. */
  lemma FilterByCategoryCaseInsensitive(catalog: seq<Category>, a: string, b: string)
    requires Lower(a) == Lower(b)
    ensures FilterByCategory(catalog, a) == FilterByCategory(catalog, b)
  {
    FilterCongruent(catalog, c => HasName(c, a), c => HasName(c, b));
  }

  // ---------------------------------------------------------------------
  // Text search (searchProducts)
  // ---------------------------------------------------------------------

  /** The lower-cased input occurs in the product's lower-cased vendor or title. */
  predicate ProductMatches(p: Product, input: string)
    ensures input == "" ==> ProductMatches(p, input)
    ensures ProductMatches(p, input) ==> |input| <= |p.vendor| || |input| <= |p.title|
  {
    Contains(Lower(p.vendor), Lower(input)) || Contains(Lower(p.title), Lower(input))
  }

  /** Some product of the category matches the input. */
  predicate CategoryMatches(c: Category, input: string)
    ensures CategoryMatches(c, input) <==> exists p :: p in c.categoryProducts && ProductMatches(p, input)
  {
    Any(c.categoryProducts, p => ProductMatches(p, input))
  }

  /**
   * The list `searchProducts(input)` makes visible: the whole categories of
   * the full catalog that hold at least one matching product.
   */
  function Search(catalog: seq<Category>, input: string): (r: seq<Category>)
    ensures forall i :: 0 <= i < |r| ==>
      r[i] in catalog && exists p :: p in r[i].categoryProducts && ProductMatches(p, input)
    ensures forall i :: 0 <= i < |catalog| && (exists p :: p in catalog[i].categoryProducts && ProductMatches(p, input)) ==>
      catalog[i] in r
  {
    Filter(catalog, c => CategoryMatches(c, input))
  }

  /** The search result lists categories in catalog order. */
  lemma SearchInOrder(catalog: seq<Category>, input: string)
    ensures IsSubsequence(Search(catalog, input), catalog)
  {
    FilterIsSubsequence(catalog, c => CategoryMatches(c, input));
  }

  /** The search works category by category, as FilterByCategoryAppend does. */
  lemma SearchAppend(a: seq<Category>, b: seq<Category>, input: string)
    ensures Search(a + b, input) == Search(a, input) + Search(b, input)
  {
    FilterAppend(a, b, c => CategoryMatches(c, input));
  }

  /**
   * On a single category: kept, whole and unchanged, exactly when one of its
   * products matches; its non-matching products are kept with it.
   */
  lemma SearchOne(c: Category, input: string)
    ensures Search([c], input) ==
      if exists p :: p in c.categoryProducts && ProductMatches(p, input) then [c] else []
  {
  }

  /** The category lists at least one product. */
  predicate HasProducts(c: Category) {
    c.categoryProducts != []
  }

  /** Every non-empty category matches the empty input; an empty category never matches. */
  lemma CategoryMatchesEmptyInput(c: Category)
    ensures CategoryMatches(c, "") <==> HasProducts(c)
  {
  }

  /** The empty input keeps exactly the categories with at least one product. */
  lemma SearchEmptyInput(catalog: seq<Category>)
    ensures Search(catalog, "") == Filter(catalog, HasProducts)
  {
  }

  /** When no category is empty, the empty input shows the whole catalog. */
  lemma SearchEmptyInputKeepsAll(catalog: seq<Category>)
    requires forall i :: 0 <= i < |catalog| ==> HasProducts(catalog[i])
    ensures Search(catalog, "") == catalog
  {
    SearchEmptyInput(catalog);
    FilterKeepsAll(catalog, HasProducts);
  }

  /** Inputs that differ only in ASCII case find the same categories. */
  lemma SearchCaseInsensitive(catalog: seq<Category>, a: string, b: string)
    requires Lower(a) == Lower(b)
    ensures Search(catalog, a) == Search(catalog, b)
  {
    forall c | c in catalog
      ensures CategoryMatches(c, a) == CategoryMatches(c, b)
    {
      assert forall p :: ProductMatches(p, a) == ProductMatches(p, b);
    }
    FilterCongruent(catalog, c => CategoryMatches(c, a), c => CategoryMatches(c, b));
  }

  // ---------------------------------------------------------------------
  // A two-category catalog and what the filters make of it
  // ---------------------------------------------------------------------

  const Shirt := Product(1, "Shirt", "Acme", "19.99", "", None)
  const Dress := Product(2, "Dress", "Zeta", "29.50", "", None)
  const Men := Category("Men", [Shirt])
  const Women := Category("Women", [Dress])

  /** Filtering the sample catalog by "Women" shows the Women category alone. */
  lemma FilterWomenExample()
    ensures FilterByCategory([Men, Women], "Women") == [Women]
  {
    assert !HasName(Men, "Women");
    FilterByCategoryAppend([Men], [Women], "Women");
    FilterByCategoryOne(Men, "Women");
    FilterByCategoryOne(Women, "Women");
  }

  /** The shirt matches "acme" through its vendor, "Acme". */
  lemma ShirtMatchesAcme()
    ensures ProductMatches(Shirt, "acme")
  {
  }

  /** Neither "zeta" nor "dress" contains "acme". */
  lemma DressMissesAcme()
    ensures !ProductMatches(Dress, "acme")
  {
  }

  /** Searching the sample catalog for "acme" finds the Men category through its vendor. */
  lemma SearchAcmeExample()
    ensures Search([Men, Women], "acme") == [Men]
  {
    ShirtMatchesAcme();
    DressMissesAcme();
    assert [Men, Women] == [Men] + [Women];
    SearchAppend([Men], [Women], "acme");
    SearchOne(Men, "acme");
    SearchOne(Women, "acme");
  }

  /**
   * Search granularity: a category holding one matching and one non-matching
   * product is shown with both.
   */
  lemma SearchKeepsNonMatchingExample()
    ensures Search([Category("Men", [Shirt, Dress])], "acme") == [Category("Men", [Shirt, Dress])]
  {
    ShirtMatchesAcme();
    DressMissesAcme();
    SearchOne(Category("Men", [Shirt, Dress]), "acme");
  }
}
