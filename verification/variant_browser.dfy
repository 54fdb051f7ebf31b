/**
 * The variant browser shared by the dialog and the embed view: the list of
 * products it has loaded, the loading and error flags around a catalog query,
 * the view those three select, and the flattening of products into one card
 * per variant with the currently selected SKU marked.
 */
module VariantBrowser {
  import opened Wrappers
  import opened Catalog
  import opened BigCommerce

  const PlaceholderImage := "https://via.placeholder.com/150?text=No+Image"
  const DefaultVariantText := "Default Variant"

  /** One card of the grid: a variant, the product it belongs to, and whether it shows as selected. */
  datatype Card = Card(product: Product, variant: Variant, selected: bool)

  /** `product.variants`, where an absent list reads as empty. */
  function VariantsOf(p: Product): seq<Variant> {
    if p.variants.Some? then p.variants.value else []
  }

  /** `selectedSku === variant.sku`: an undefined selection matches no variant. */
  predicate IsSelected(selectedSku: Option<string>, v: Variant) {
    selectedSku == Some(v.sku)
  }

  /** `variants.map(variant => <Card/>)` for one product. */
  function VariantCards(p: Product, vs: seq<Variant>, selectedSku: Option<string>): (cs: seq<Card>)
    ensures |cs| == |vs|
    ensures forall i :: 0 <= i < |vs| ==> cs[i] == Card(p, vs[i], IsSelected(selectedSku, vs[i]))
  {
    if vs == [] then [] else [Card(p, vs[0], IsSelected(selectedSku, vs[0]))] + VariantCards(p, vs[1..], selectedSku)
  }

  /**
   * `products.map(product => product.variants && product.variants.length > 0 ? … : null)`:
   * each product's variants in order, products after one another; a product
   * whose variants are absent or empty contributes no card.
   */
  function Cards(products: seq<Product>, selectedSku: Option<string>): (cs: seq<Card>)
    ensures forall c :: c in cs ==>
      && c.product in products
      && c.variant in VariantsOf(c.product)
      && (c.selected <==> IsSelected(selectedSku, c.variant))
  {
    if products == [] then []
    else VariantCards(products[0], VariantsOf(products[0]), selectedSku) + Cards(products[1..], selectedSku)
  }

  /** The cards of a longer product list are the cards of its parts, in order. */
  lemma {:induction false} CardsAppend(a: seq<Product>, b: seq<Product>, selectedSku: Option<string>)
    ensures Cards(a + b, selectedSku) == Cards(a, selectedSku) + Cards(b, selectedSku)
  {
    if a == [] {
      assert a + b == b;
    } else {
      assert (a + b)[0] == a[0];
      assert (a + b)[1..] == a[1..] + b;
      CardsAppend(a[1..], b, selectedSku);
    }
  }

  /** Every variant of every listed product gets a card, marked exactly when its SKU is the selected one. */
  lemma {:induction false} CardsCover(products: seq<Product>, selectedSku: Option<string>, i: int, j: int)
    requires 0 <= i < |products| && 0 <= j < |VariantsOf(products[i])|
    ensures Card(products[i], VariantsOf(products[i])[j], IsSelected(selectedSku, VariantsOf(products[i])[j]))
            in Cards(products, selectedSku)
  {
    if i > 0 {
      CardsCover(products[1..], selectedSku, i - 1, j);
    } else {
      var cs := VariantCards(products[0], VariantsOf(products[0]), selectedSku);
      assert cs[j] in cs;
    }
  }

  /** Products with no variants add nothing to the grid. */
  lemma {:induction false} CardsSkipEmpty(products: seq<Product>, p: Product, selectedSku: Option<string>)
    requires VariantsOf(p) == []
    ensures Cards(products + [p], selectedSku) == Cards(products, selectedSku)
  {
    CardsAppend(products, [p], selectedSku);
    assert Cards([p], selectedSku) == [] by {
      assert [p][1..] == [];
    }
  }

  /**
   * `onSelectVariant(variant.sku, variant, product)` for the clicked card: the
   * reported SKU is the card variant's own, and the pair is passed unchanged.
   */
  function SelectEvent(c: Card): (e: (string, Variant, Product))
    ensures e.0 == e.1.sku && e.1 == c.variant && e.2 == c.product
  {
    (c.variant.sku, c.variant, c.product)
  }

  /**
   * The option line of a card: the joined options, or "Default Variant" when
   * there are none. It reads "Default Variant" exactly when the variant has no
   * options, since an option text always holds a ':' where the default has none.
   */
  function VariantOptionText(v: Variant): (t: string)
    ensures t == DefaultVariantText <==> (v.optionValues.None? || v.optionValues.value == [])
    ensures v.optionValues.Some? && v.optionValues.value != [] ==> OptionText(v.optionValues.value[0]) <= t
  {
    if v.optionValues.Some? && |v.optionValues.value| > 0 then
      var t := FormatOptionValues(v.optionValues.value);
      assert t[|v.optionValues.value[0].optionDisplayName|] == ':';
      assert forall i :: 0 <= i < |DefaultVariantText| ==> DefaultVariantText[i] != ':';
      t
    else DefaultVariantText
  }

  /** The card image: the first non-empty thumbnail, else the placeholder; never empty. */
  function CardImage(p: Product): (url: string)
    ensures url != ""
    ensures Present(PrimaryThumbnail(p)) ==> url == PrimaryThumbnail(p).value
    ensures !Present(PrimaryThumbnail(p)) && Present(FirstImageThumbnail(p)) ==> url == FirstImageThumbnail(p).value
    ensures !Present(PrimaryThumbnail(p)) && !Present(FirstImageThumbnail(p)) ==> url == PlaceholderImage
  {
    ProductImage(p, PlaceholderImage)
  }

  /** Which blocks of the browser are rendered. */
  datatype View = View(spinner: bool, errorText: Option<string>, emptyMessage: bool, grid: bool)

  /**
   * `{loading && …}`, `{error && …}`, `{!loading && !error && products.length === 0 && …}`, `{… > 0 && …}`:
   * the empty-list message and the grid never show together; with no load in
   * flight and no error exactly one of them shows; an error is shown as given.
   */
  function ViewOf(loading: bool, error: Option<string>, products: seq<Product>): (v: View)
    ensures v.spinner == loading
    ensures !(v.grid && v.emptyMessage)
    ensures v.grid ==> !v.spinner && v.errorText.None? && products != []
    ensures !loading && !Present(error) ==> v.grid || v.emptyMessage
    ensures Present(error) ==> v.errorText == error && !v.grid && !v.emptyMessage
    ensures !Present(error) ==> v.errorText.None?
    ensures v.emptyMessage <==> !loading && !Present(error) && products == []
  {
    var idle := !loading && !Present(error);
    View(loading, if Present(error) then error else None, idle && products == [], idle && products != [])
  }

  /** `search ? service.searchProducts(search) : service.getProducts()` */
  function ProductQuery(service: BigCommerceService, search: Option<string>,
                        fetch: HttpRequest -> FetchOutcome<seq<Product>>): (r: Result<seq<Product>, string>)
    ensures Present(search) ==> r == service.Request(SearchEndpoint(search.value, 1, 50), fetch)
    ensures !Present(search) ==> r == service.Request(ProductsEndpoint(1, 50), fetch)
  {
    if Present(search) then service.SearchProducts(fetch, search.value) else service.GetProducts(fetch)
  }

  class VariantBrowserState {
    const storeHash: string
    const accessToken: string
    const selectedSku: Option<string>
    var searchTerm: string
    var products: seq<Product>
    var loading: bool
    var error: Option<string>
    var service: BigCommerceService?

    constructor (storeHash: string, accessToken: string, selectedSku: Option<string>)
      ensures this.storeHash == storeHash && this.accessToken == accessToken && this.selectedSku == selectedSku
      ensures searchTerm == "" && products == [] && !loading && error.None? && service == null
    {
      this.storeHash := storeHash;
      this.accessToken := accessToken;
      this.selectedSku := selectedSku;
      searchTerm := "";
      products := [];
      loading := false;
      error := None;
      service := null;
    }

    /** `setLoading(true); setError(null)` before the query. */
    method BeginLoad()
      modifies this
      ensures loading && error.None?
      ensures products == old(products) && searchTerm == old(searchTerm) && service == old(service)
    {
      loading := true;
      error := None;
    }

    /** Take a query's outcome: a success replaces the products, a failure keeps them and records the message. */
    method EndLoad(r: Result<seq<Product>, string>)
      modifies this
      ensures !loading
      ensures r.Success? ==> products == r.value && error == old(error)
      ensures r.Failure? ==> products == old(products) && error == Some(r.error)
      ensures searchTerm == old(searchTerm) && service == old(service)
    {
      if r.Success? {
        products := r.value;
      } else {
        error := Some(r.error);
      }
      loading := false;
    }

    /** `loadProducts(service, search)` */
    method LoadProducts(svc: BigCommerceService, search: Option<string>, fetch: HttpRequest -> FetchOutcome<seq<Product>>)
      modifies this
      ensures !loading
      ensures var r := ProductQuery(svc, search, fetch);
        && (r.Success? ==> products == r.value && error.None?)
        && (r.Failure? ==> products == old(products) && error == Some(r.error))
      ensures searchTerm == old(searchTerm) && service == old(service)
    {
      BeginLoad();
      var r := ProductQuery(svc, search, fetch);
      EndLoad(r);
    }

    /** The mount effect: with both credentials, create the service and load the unfiltered list. */
    method Mount(fetch: HttpRequest -> FetchOutcome<seq<Product>>)
      modifies this
      ensures storeHash != "" && accessToken != "" ==>
        && service != null && fresh(service) && service.Valid()
        && service.storeHash == storeHash && service.accessToken == accessToken
        && !loading
        && var r := service.GetProducts(fetch);
           && (r.Success? ==> products == r.value && error.None?)
           && (r.Failure? ==> products == old(products) && error == Some(r.error))
      ensures !(storeHash != "" && accessToken != "") ==>
        products == old(products) && loading == old(loading) && error == old(error) && service == old(service)
      ensures searchTerm == old(searchTerm)
    {
      if storeHash != "" && accessToken != "" {
        var svc := new BigCommerceService(Config(storeHash, accessToken));
        service := svc;
        LoadProducts(svc, None, fetch);
      }
    }

    /** `handleSearch`: query with the current search term, or do nothing while there is no service. */
    method HandleSearch(fetch: HttpRequest -> FetchOutcome<seq<Product>>)
      modifies this
      ensures old(service) == null ==>
        products == old(products) && loading == old(loading) && error == old(error) && service == null
      ensures old(service) != null ==>
        && service == old(service) && !loading
        && var r := ProductQuery(service, Some(searchTerm), fetch);
           && (r.Success? ==> products == r.value && error.None?)
           && (r.Failure? ==> products == old(products) && error == Some(r.error))
      ensures searchTerm == old(searchTerm)
    {
      if service != null {
        LoadProducts(service, Some(searchTerm), fetch);
      }
    }

    /** The search box's `onChange`. */
    method SetSearchTerm(term: string)
      modifies this
      ensures searchTerm == term
      ensures products == old(products) && loading == old(loading) && error == old(error) && service == old(service)
    {
      searchTerm := term;
    }
  }
}
