/**
 * The entry sidebar: it opens the picker dialog and inserts the chosen variant
 * as a link paragraph at the end of the entry's rich-text field `content`.
 */
module Sidebar {
  import opened Wrappers
  import opened Catalog
  import opened VariantCodec
  import opened RichText
  import opened Host
  import opened Dialog
  import RichTextEmbed

  const NoContentFieldMessage :=
    "No content field found. Please ensure your content type has a rich text field named \"content\"."

  /**
   * `🛒 ${product.name} - ${variant.sku} - £${(calculated_price || price).toFixed(2)}`;
   * `toFixed2` formats the price. It is the rich-text view's link text between
   * a cart and the formatted stored price.
   */
  function LinkText(product: Product, variant: Variant, toFixed2: real -> string): (t: string)
    ensures t == "\U{1F6D2} " + RichTextEmbed.LinkText(product, variant) + " - \U{A3}" + toFixed2(EncodeFlat(product, variant).price)
    ensures t[2..2 + |product.name|] == product.name
  {
    "\U{1F6D2} " + product.name + " - " + variant.sku + " - \U{A3}" + toFixed2(SelectedPrice(variant))
  }

  /**
   * `handleSelectVariant`: without a `content` field, report it and write
   * nothing; otherwise append the product paragraph and report success. The
   * `sku` argument is not used: the link names `variant.sku`.
   */
  method HandleSelectVariant(contentField: RichTextField?, sku: string, variant: Variant, product: Product,
                             stringify: FlatRecord -> string, toFixed2: real -> string)
    returns (notice: Notice)
    modifies contentField
    ensures contentField == null ==> notice == NotifyError(NoContentFieldMessage)
    ensures contentField != null ==>
      && contentField.value
         == Some(AppendParagraph(old(contentField.value),
                   ProductParagraph(product, variant, stringify, LinkText(product, variant, toFixed2))))
      && notice == NotifySuccess(AddedMessage(variant))
  {
    if contentField == null {
      return NotifyError(NoContentFieldMessage);
    }
    contentField.InsertParagraph(ProductParagraph(product, variant, stringify, LinkText(product, variant, toFixed2)));
    notice := NotifySuccess(AddedMessage(variant));
  }

  /**
   * `handleOpenProductPicker`: missing credentials stop before the dialog
   * opens; the dialog gets the credentials and no current SKU; a dialog closed
   * without a result inserts nothing; a result is inserted as above.
   */
  method HandleOpenProductPicker(parameters: InstallationParameters, contentField: RichTextField?,
                                 openDialog: DialogParameters -> Option<DialogResult>,
                                 stringify: FlatRecord -> string, toFixed2: real -> string)
    returns (notice: Notice)
    modifies contentField
    ensures !HasCredentials(parameters) ==>
      notice == NotifyError(MissingCredentialsMessage) && (contentField != null ==> contentField.value == old(contentField.value))
    ensures HasCredentials(parameters) ==>
      var result := openDialog(DialogParameters(parameters.storeHash.value, parameters.accessToken.value, None));
      && (result.None? ==> notice == Silent && (contentField != null ==> contentField.value == old(contentField.value)))
      && (result.Some? && contentField != null ==>
           && contentField.value
              == Some(AppendParagraph(old(contentField.value),
                        ProductParagraph(result.value.product, result.value.variant, stringify,
                          LinkText(result.value.product, result.value.variant, toFixed2))))
           && notice == NotifySuccess(AddedMessage(result.value.variant)))
      && (result.Some? && contentField == null ==> notice == NotifyError(NoContentFieldMessage))
  {
    if !HasCredentials(parameters) {
      return NotifyError(MissingCredentialsMessage);
    }
    var result := openDialog(DialogParameters(parameters.storeHash.value, parameters.accessToken.value, None));
    if result.None? {
      return Silent;
    }
    notice := HandleSelectVariant(contentField, result.value.sku, result.value.variant, result.value.product,
                                  stringify, toFixed2);
  }

  /**
   * A product picked in the sidebar's dialog is embedded with the record the
   * field would store for the unprojected pair, under the picked card's SKU.
   */
  lemma SidebarPayloadMatchesField(sku: string, variant: Variant, product: Product,
                                   stringify: FlatRecord -> string, toFixed2: real -> string)
    ensures var r := HandOff(sku, variant, product);
      var link := LinkOf(ProductParagraph(r.product, r.variant, stringify, LinkText(r.product, r.variant, toFixed2)));
      && link.Some?
      && ParseProductUri(link.value.0)
         == Some((variant.sku, UriEncoding.EncodeUriComponent(stringify(EncodeFlat(product, variant)))))
  {
    ProjectionPreservesEncoding(product, variant);
  }
}
