/**
 * The single-field editor: the session keeps the SKU shown in the input, the
 * selected pair shown in the preview card, and mirrors the value the host
 * stores for the field. Selecting stores the flat record; a stored value is
 * read back through the codec whenever the host reports a change.
 */
module Field {
  import opened Wrappers
  import opened Catalog
  import opened VariantCodec
  import opened Host
  import opened Dialog
  import opened VariantBrowser

  const PlaceholderImage := "https://via.placeholder.com/100?text=No+Image"

  /** `Selected variant: ${sku}` */
  function SelectedMessage(sku: string): string {
    "Selected variant: " + sku
  }

  /** The preview card's image: the first non-empty thumbnail, else the placeholder; never empty. */
  function PreviewImage(product: Product): (url: string)
    ensures url != ""
    ensures Present(PrimaryThumbnail(product)) ==> url == PrimaryThumbnail(product).value
    ensures !Present(PrimaryThumbnail(product)) && Present(FirstImageThumbnail(product)) ==> url == FirstImageThumbnail(product).value
    ensures !Present(PrimaryThumbnail(product)) && !Present(FirstImageThumbnail(product)) ==> url == PlaceholderImage
  {
    ProductImage(product, PlaceholderImage)
  }

  /** A preview rebuilt from a stored record shows the stored image, or the placeholder when none was stored. */
  lemma RestoredPreviewImage(f: StoredFlat)
    ensures PreviewImage(Rebuild(f).product.value) == if f.imageUrl != "" then f.imageUrl else PlaceholderImage
  {
  }

  /** The option line of the preview is the same before storing and after reading the record back. */
  lemma RestoredOptionText(ovs: seq<OptionValue>)
    ensures FormatOptionValues(DecodeOptions(EncodeOptions(ovs))) == FormatOptionValues(ovs)
  {
    DecodeEncodeOptions(ovs);
    var restored := DecodeOptions(EncodeOptions(ovs));
    assert OptionTexts(restored) == OptionTexts(ovs) by {
      assert forall i :: 0 <= i < |ovs| ==> OptionText(restored[i]) == OptionText(ovs[i]) by {
        forall i | 0 <= i < |ovs|
          ensures OptionText(restored[i]) == OptionText(ovs[i])
        {
          assert restored[i] == ovs[i].(id := None);
        }
      }
    }
  }

  /**
   * From the browser to storage and back: a card picked in the dialog, stored
   * by the field and read back, restores the card's SKU and a selection that
   * stores the card's pair again, when that SKU is not empty.
   */
  lemma PickedCardRestores(products: seq<Product>, selectedSku: Option<string>, c: Card)
    requires c in Cards(products, selectedSku)
    requires c.variant.sku != ""
    ensures var (sku, v, p) := SelectEvent(c);
      var r := HandOff(sku, v, p);
      var d := Decode(Stored(EncodeFlat(r.product, r.variant)));
      && d.Restore? && d.sku == r.sku == c.variant.sku
      && EncodeFlat(d.selection.product.value, d.selection.variant) == EncodeFlat(c.product, c.variant)
  {
    var (sku, v, p) := SelectEvent(c);
    HandOffFromCard(products, selectedSku, c);
    RestoreAfterEncode(HandOff(sku, v, p).product, HandOff(sku, v, p).variant);
  }

  class FieldSession {
    var value: string
    var selection: Option<Selection>
    var stored: Raw
    var parameters: InstallationParameters

    /**
     * Mount: the installation parameters (`{}` when there are none) and the
     * stored value read through the codec; a falsy stored value leaves the
     * input empty and nothing selected.
     */
    constructor (installation: Option<InstallationParameters>, raw: Raw)
      ensures parameters == if installation.Some? then installation.value else InstallationParameters(None, None)
      ensures stored == raw
      ensures match Decode(raw)
        case Restore(sel, sku) => value == sku && selection == Some(sel)
        case RestoreSku(sku) => value == sku && selection.None?
        case ClearSelection => value == "" && selection.None?
        case KeepState => value == "" && selection.None?
    {
      parameters := if installation.Some? then installation.value else InstallationParameters(None, None);
      stored := raw;
      value := "";
      selection := None;
      var d := Decode(raw);
      if d.Restore? {
        selection := Some(d.selection);
        value := d.sku;
      } else if d.RestoreSku? {
        value := d.sku;
      }
    }

    /** `onValueChanged`: the host reports a new stored value. */
    method OnValueChanged(newValue: Raw)
      modifies this
      ensures stored == newValue && parameters == old(parameters)
      ensures match Decode(newValue)
        case Restore(sel, sku) => value == sku && selection == Some(sel)
        case RestoreSku(sku) => value == sku && selection == old(selection)
        case ClearSelection => value == "" && selection.None?
        case KeepState => value == old(value) && selection == old(selection)
    {
      stored := newValue;
      var d := Decode(newValue);
      match d
      case Restore(sel, sku) =>
        selection := Some(sel);
        value := sku;
      case RestoreSku(sku) =>
        value := sku;
      case ClearSelection =>
        value := "";
        selection := None;
      case KeepState =>
    }

    /** `handleSelectVariant`: show the SKU, store the flat record, keep the pair for the preview. */
    method SelectVariant(sku: string, variant: Variant, product: Product) returns (notice: Notice)
      modifies this
      ensures value == sku
      ensures stored == Stored(EncodeFlat(product, variant))
      ensures selection == Some(Selection(Some(product), variant))
      ensures parameters == old(parameters)
      ensures notice == NotifySuccess(SelectedMessage(sku))
    {
      value := sku;
      stored := Stored(EncodeFlat(product, variant));
      selection := Some(Selection(Some(product), variant));
      notice := NotifySuccess(SelectedMessage(sku));
    }

    /** `handleClear`: empty input, stored value null, nothing selected. */
    method Clear()
      modifies this
      ensures value == "" && stored == Null && selection.None?
      ensures parameters == old(parameters)
    {
      value := "";
      stored := Null;
      selection := None;
    }

    /**
     * `handleOpenDialog`: missing credentials stop before the dialog opens;
     * the dialog gets the credentials and the displayed SKU; a dialog closed
     * without a result changes nothing; a result is selected as above.
     */
    method OpenDialog(openDialog: DialogParameters -> Option<DialogResult>) returns (notice: Notice)
      modifies this
      ensures parameters == old(parameters)
      ensures !HasCredentials(parameters) ==>
        && notice == NotifyError(MissingCredentialsMessage)
        && value == old(value) && stored == old(stored) && selection == old(selection)
      ensures HasCredentials(parameters) ==>
        var result := openDialog(DialogParameters(parameters.storeHash.value, parameters.accessToken.value, Some(old(value))));
        && (result.None? ==>
             notice == Silent && value == old(value) && stored == old(stored) && selection == old(selection))
        && (result.Some? ==>
             && value == result.value.sku
             && stored == Stored(EncodeFlat(result.value.product, result.value.variant))
             && selection == Some(Selection(Some(result.value.product), result.value.variant))
             && notice == NotifySuccess(SelectedMessage(result.value.sku)))
    {
      if !HasCredentials(parameters) {
        return NotifyError(MissingCredentialsMessage);
      }
      var result := openDialog(DialogParameters(parameters.storeHash.value, parameters.accessToken.value, Some(value)));
      match result
      case None =>
        notice := Silent;
      case Some(picked) =>
        notice := SelectVariant(picked.sku, picked.variant, picked.product);
    }
  }
}
