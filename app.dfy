/**
 * The state held by the storefront's `App` component and the handlers that
 * replace it: the catalog load, `showProducts`, `searchProducts`,
 * `addToCart` and `toggleCart`. Each handler runs to completion within one
 * event, so each is one method that reassigns the fields it sets.
 */
module App {
  import opened Seqs
  import opened Catalog

  /** What the catalog request produced: the document's `categories`, or an error. */
  datatype FetchOutcome = Fetched(categories: seq<Category>) | FetchFailed

  class Storefront {
    /** The full catalog, as loaded. */
    var products: seq<Category>
    /** The categories currently shown. */
    var filteredProducts: seq<Category>
    /** The products added to the cart, in order of addition, duplicates included. */
    var cartItems: seq<Product>
    var isCartOpen: bool

    /** The shown categories are always taken, in order, from the full catalog. */
    ghost predicate Valid()
      reads this
      ensures Valid() ==> |filteredProducts| <= |products|
      ensures Valid() ==> forall i :: 0 <= i < |filteredProducts| ==> filteredProducts[i] in products
    {
      IsSubsequence(filteredProducts, products)
    }

    /** The component's first render: nothing loaded, empty cart, cart closed. */
    constructor ()
      ensures Valid()
      ensures products == [] && filteredProducts == []
      ensures cartItems == [] && !isCartOpen
    {
      products := [];
      filteredProducts := [];
      cartItems := [];
      isCartOpen := false;
    }

    /**
     * The end of the effect that loads the catalog: on success both lists
     * become the fetched categories; on failure the error is only logged and
     * nothing changes.
     */
    method Load(outcome: FetchOutcome)
      requires Valid()
      modifies this
      ensures Valid()
      ensures outcome.Fetched? ==> products == outcome.categories && filteredProducts == outcome.categories
      ensures outcome.FetchFailed? ==> products == old(products) && filteredProducts == old(filteredProducts)
      ensures cartItems == old(cartItems) && isCartOpen == old(isCartOpen)
    {
      match outcome
      case Fetched(categories) =>
        products := categories;
        filteredProducts := categories;
        SubsequenceReflexive(categories);
      case FetchFailed =>
    }

    /** `showProducts(category)`: show every category, or those with that name. */
    method ShowProducts(category: string)
      modifies this
      ensures Valid()
      ensures filteredProducts == FilterByCategory(products, category)
      ensures products == old(products) && cartItems == old(cartItems) && isCartOpen == old(isCartOpen)
    {
      filteredProducts := FilterByCategory(products, category);
      FilterByCategoryInOrder(products, category);
    }

    /** `searchProducts(input)`: show the categories of the full catalog that match. */
    method SearchProducts(input: string)
      modifies this
      ensures Valid()
      ensures filteredProducts == Search(products, input)
      ensures products == old(products) && cartItems == old(cartItems) && isCartOpen == old(isCartOpen)
    {
      filteredProducts := Search(products, input);
      SearchInOrder(products, input);
    }

    /** `addToCart(product)`: append the product, whether or not it is already there. */
    method AddToCart(product: Product)
      requires Valid()
      modifies this
      ensures Valid()
      ensures cartItems == old(cartItems) + [product]
      ensures products == old(products) && filteredProducts == old(filteredProducts)
      ensures isCartOpen == old(isCartOpen)
    {
      cartItems := cartItems + [product];
    }

    /** `toggleCart()`: open a closed cart, close an open one. */
    method ToggleCart()
      requires Valid()
      modifies this
      ensures Valid()
      ensures isCartOpen == !old(isCartOpen)
      ensures products == old(products) && filteredProducts == old(filteredProducts)
      ensures cartItems == old(cartItems)
    {
      isCartOpen := !isCartOpen;
    }
  }

  /**
   * A search starts again from the full catalog: after filtering to "Men",
   * searching for "" shows every category that has products, not just Men.
   */
  method FilterThenSearchEmpty(app: Storefront)
    modifies app
    ensures app.Valid()
    ensures app.products == old(app.products) && app.cartItems == old(app.cartItems)
    ensures app.isCartOpen == old(app.isCartOpen)
    ensures app.filteredProducts == Filter(app.products, HasProducts)
    ensures (forall i :: 0 <= i < |app.products| ==> HasProducts(app.products[i])) ==>
      app.filteredProducts == app.products
  {
    app.ShowProducts("Men");
    app.SearchProducts("");
    SearchEmptyInput(app.products);
    if forall i :: 0 <= i < |app.products| ==> HasProducts(app.products[i]) {
      SearchEmptyInputKeepsAll(app.products);
    }
  }

  /** Toggling the cart twice leaves the whole state as it was. */
  method ToggleTwice(app: Storefront)
    requires app.Valid()
    modifies app
    ensures app.Valid()
    ensures app.isCartOpen == old(app.isCartOpen)
    ensures app.products == old(app.products) && app.filteredProducts == old(app.filteredProducts)
    ensures app.cartItems == old(app.cartItems)
  {
    app.ToggleCart();
    app.ToggleCart();
  }

  /**
   * Adding the same product twice keeps two entries: the cart grows by
   * exactly one per addition and what was there stays at the front.
   */
  method AddSameProductTwice(app: Storefront, product: Product)
    requires app.Valid()
    modifies app
    ensures app.Valid()
    ensures app.cartItems == old(app.cartItems) + [product, product]
    ensures |app.cartItems| == |old(app.cartItems)| + 2
    ensures app.cartItems[..|old(app.cartItems)|] == old(app.cartItems)
    ensures app.products == old(app.products) && app.filteredProducts == old(app.filteredProducts)
    ensures app.isCartOpen == old(app.isCartOpen)
  {
    app.AddToCart(product);
    app.AddToCart(product);
  }

  /**
   * Browsing the two-category sample catalog: after loading it, the "Women"
   * filter shows the Women category alone, and a search for "acme" then shows
   * the Men category, found through its product's vendor.
   */
  method SampleBrowse() returns (app: Storefront)
    ensures app.Valid()
    ensures app.products == [Men, Women]
    ensures app.filteredProducts == [Men]
    ensures app.cartItems == [] && !app.isCartOpen
  {
    app := new Storefront();
    app.Load(Fetched([Men, Women]));
    app.ShowProducts("Women");
    FilterWomenExample();
    assert app.filteredProducts == [Women];
    app.SearchProducts("acme");
    SearchAcmeExample();
  }

  /** Adding the two sample products to an empty cart leaves exactly those two, in order. */
  method SampleCart(app: Storefront)
    requires app.Valid() && app.cartItems == []
    modifies app
    ensures app.Valid()
    ensures app.cartItems == [Shirt, Dress] && |app.cartItems| == 2
    ensures app.products == old(app.products) && app.filteredProducts == old(app.filteredProducts)
    ensures app.isCartOpen == old(app.isCartOpen)
  {
    app.AddToCart(Shirt);
    app.AddToCart(Dress);
  }
}
