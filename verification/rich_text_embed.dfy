/**
 * The rich-text field view: it shows the variant browser directly and
 * inserts the chosen variant as a link paragraph at the end of its own field.
 */
module RichTextEmbed {
  import opened Wrappers
  import opened Catalog
  import opened VariantCodec
  import opened RichText
  import opened Host

  /** `${product.name} - ${variant.sku}` */
  function LinkText(product: Product, variant: Variant): (t: string)
    ensures |t| == |product.name| + 3 + |variant.sku|
    ensures t[..|product.name|] == product.name
    ensures t[|product.name|..|product.name| + 3] == " - "
    ensures t[|t| - |variant.sku|..] == variant.sku
  {
    product.name + " - " + variant.sku
  }

  /**
   * `handleSelectVariant`: append the product paragraph to the field's
   * document, or start a new one, and report success. The `sku` argument is
   * not used: the link names `variant.sku`.
   */
  method HandleSelectVariant(field: RichTextField, sku: string, variant: Variant, product: Product,
                             stringify: FlatRecord -> string)
    returns (notice: Notice)
    modifies field
    ensures field.value == Some(AppendParagraph(old(field.value), ProductParagraph(product, variant, stringify, LinkText(product, variant))))
    ensures ContentOf(field.value) == ContentOf(old(field.value)) + [ProductParagraph(product, variant, stringify, LinkText(product, variant))]
    ensures notice == NotifySuccess(AddedMessage(variant))
  {
    field.InsertParagraph(ProductParagraph(product, variant, stringify, LinkText(product, variant)));
    notice := NotifySuccess(AddedMessage(variant));
  }
}
