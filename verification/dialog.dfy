/**
 * The picker dialog: it receives the credentials and the currently selected
 * SKU as invocation parameters, shows the variant browser, and closes with a
 * serialisable projection of the chosen pair.
 */
module Dialog {
  import opened Wrappers
  import opened Catalog
  import opened VariantCodec
  import opened VariantBrowser

  /** `{storeHash, accessToken, currentSku?}` */
  datatype DialogParameters = DialogParameters(storeHash: string, accessToken: string, currentSku: Option<string>)

  /** `{sku, variant, product}` as passed to `sdk.close`. */
  datatype DialogResult = DialogResult(sku: string, variant: Variant, product: Product)

  /** The variant keeps `id, sku, price, calculated_price, option_values`; nothing else survives. */
  function ProjectVariant(v: Variant): (w: Variant)
    ensures w.id == v.id && w.sku == v.sku && w.price == v.price
    ensures w.calculatedPrice == v.calculatedPrice && w.optionValues == v.optionValues
    ensures w.productId.None? && w.inventoryLevel.None? && w.imageUrl.None?
  {
    Variant(v.id, None, v.sku, v.price, v.calculatedPrice, None, None, v.optionValues)
  }

  /** The product keeps `id, name, sku, primary_image, images`; its price fields and its variants are dropped. */
  function ProjectProduct(p: Product): (q: Product)
    ensures q.id == p.id && q.name == p.name && q.sku == p.sku
    ensures q.primaryImage == p.primaryImage && q.images == p.images
    ensures q.price.None? && q.calculatedPrice.None? && q.variants.None?
  {
    Product(p.id, p.name, p.sku, None, None, None, p.primaryImage, p.images)
  }

  /** What the dialog closes with when the browser reports a selection. */
  function HandOff(sku: string, variant: Variant, product: Product): (r: DialogResult)
    ensures r.sku == sku
  {
    DialogResult(sku, ProjectVariant(variant), ProjectProduct(product))
  }

  /**
   * The encoder reads only fields that the projection keeps, so storing the
   * projected pair stores exactly what storing the original pair would.
   */
  lemma ProjectionPreservesEncoding(product: Product, variant: Variant)
    ensures EncodeFlat(ProjectProduct(product), ProjectVariant(variant)) == EncodeFlat(product, variant)
  {
  }

  /** Projecting twice is projecting once: a handed-off pair passes through the dialog unchanged. */
  lemma ProjectionIdempotent(product: Product, variant: Variant)
    ensures ProjectProduct(ProjectProduct(product)) == ProjectProduct(product)
    ensures ProjectVariant(ProjectVariant(variant)) == ProjectVariant(variant)
  {
  }

  /** The browser the dialog shows: the invocation's credentials, and its `currentSku` as the selected SKU. */
  method OpenBrowser(params: DialogParameters) returns (browser: VariantBrowserState)
    ensures fresh(browser)
    ensures browser.storeHash == params.storeHash && browser.accessToken == params.accessToken
    ensures browser.selectedSku == params.currentSku
  {
    browser := new VariantBrowserState(params.storeHash, params.accessToken, params.currentSku);
  }

  /**
   * Clicking any card of the browser closes the dialog with the card's own SKU,
   * and the pair it hands back stores exactly what the card's pair would.
   */
  lemma HandOffFromCard(products: seq<Product>, selectedSku: Option<string>, c: Card)
    requires c in Cards(products, selectedSku)
    ensures var (sku, v, p) := SelectEvent(c);
      && HandOff(sku, v, p).sku == HandOff(sku, v, p).variant.sku == c.variant.sku
      && EncodeFlat(HandOff(sku, v, p).product, HandOff(sku, v, p).variant) == EncodeFlat(c.product, c.variant)
      && HandOff(sku, v, p).product.id == c.product.id
      && c.product in products
  {
    ProjectionPreservesEncoding(c.product, c.variant);
  }
}
