/**
 * The variant-selection codec of the field: the flat record a selected
 * (product, variant) pair is stored as, and the reading of whatever value the
 * host holds for the field back into the session's display state.
 *
 * Three stored shapes are read: the flat record (an object with a non-empty
 * `variantSku`), the older nested `{variant, product}` object, and a bare SKU
 * string. Only the flat record is written.
 */
module VariantCodec {
  import opened Wrappers
  import opened Catalog

  datatype FlatOption = FlatOption(name: string, value: string)

  /** `{variantId, variantSku, productId, productName, price, imageUrl, options}` as written. */
  datatype FlatRecord = FlatRecord(
    variantId: int,
    variantSku: string,
    productId: int,
    productName: string,
    price: real,
    imageUrl: string,
    options: seq<FlatOption>)

  /** `variant.option_values`, where an absent list reads as empty (`?.map(...) || []`). */
  function OptionsOf(v: Variant): seq<OptionValue> {
    if v.optionValues.Some? then v.optionValues.value else []
  }

  /** `option_values.map(opt => ({name: opt.option_display_name, value: opt.label}))` */
  function EncodeOptions(ovs: seq<OptionValue>): (opts: seq<FlatOption>)
    ensures |opts| == |ovs|
    ensures forall i :: 0 <= i < |ovs| ==> opts[i].name == ovs[i].optionDisplayName && opts[i].value == ovs[i].labelText
  {
    if ovs == [] then [] else [FlatOption(ovs[0].optionDisplayName, ovs[0].labelText)] + EncodeOptions(ovs[1..])
  }

  /**
   * The flat record stored for a selected pair; the field, the sidebar and the
   * embed all build this one. It names the variant and its product, takes one
   * of the variant's two prices, and lists the options one for one.
   */
  function EncodeFlat(product: Product, variant: Variant): (r: FlatRecord)
    ensures r.variantId == variant.id && r.variantSku == variant.sku
    ensures r.productId == product.id && r.productName == product.name
    ensures r.price == variant.price || (variant.calculatedPrice.Some? && r.price == variant.calculatedPrice.value)
    ensures r.imageUrl == "" || Some(r.imageUrl) == PrimaryThumbnail(product) || Some(r.imageUrl) == FirstImageThumbnail(product)
    ensures |r.options| == |OptionsOf(variant)|
    ensures forall i :: 0 <= i < |r.options| ==>
      r.options[i].name == OptionsOf(variant)[i].optionDisplayName && r.options[i].value == OptionsOf(variant)[i].labelText
  {
    FlatRecord(
      variant.id,
      variant.sku,
      product.id,
      product.name,
      SelectedPrice(variant),
      ProductImage(product, ""),
      EncodeOptions(OptionsOf(variant)))
  }

  /** The stored price is the calculated price when it is defined and non-zero, otherwise the list price. */
  lemma EncodedPrice(product: Product, variant: Variant)
    ensures NonZero(variant.calculatedPrice) ==> EncodeFlat(product, variant).price == variant.calculatedPrice.value
    ensures !NonZero(variant.calculatedPrice) ==> EncodeFlat(product, variant).price == variant.price
  {
  }

  /** The stored image is the first non-empty of the primary and the first image's thumbnails, else ''. */
  lemma EncodedImage(product: Product, variant: Variant)
    ensures Present(PrimaryThumbnail(product)) ==> EncodeFlat(product, variant).imageUrl == PrimaryThumbnail(product).value
    ensures !Present(PrimaryThumbnail(product)) && Present(FirstImageThumbnail(product))
            ==> EncodeFlat(product, variant).imageUrl == FirstImageThumbnail(product).value
    ensures !Present(PrimaryThumbnail(product)) && !Present(FirstImageThumbnail(product))
            ==> EncodeFlat(product, variant).imageUrl == ""
  {
  }

  /** The stored options follow `option_values` one for one and in order; an absent list stores []. */
  lemma EncodedOptions(product: Product, variant: Variant)
    ensures variant.optionValues.None? ==> EncodeFlat(product, variant).options == []
    ensures |EncodeFlat(product, variant).options| == |OptionsOf(variant)|
    ensures forall i :: 0 <= i < |OptionsOf(variant)| ==>
      EncodeFlat(product, variant).options[i] == FlatOption(OptionsOf(variant)[i].optionDisplayName, OptionsOf(variant)[i].labelText)
  {
  }

  /** The flat keys of a stored object, as read back; `options` may be missing. */
  datatype StoredFlat = StoredFlat(
    variantId: int,
    variantSku: string,
    productId: int,
    productName: string,
    price: real,
    imageUrl: string,
    options: Option<seq<FlatOption>>)

  /**
   * A value the host may hold for the field. An object may carry the flat keys,
   * a `variant` and a `product`; `None` stands for an absent key.
   */
  datatype Raw =
    | Undefined
    | Null
    | Bool(b: bool)
    | Number(n: real)
    | Str(s: string)
    | Object(flat: Option<StoredFlat>, variant: Option<Variant>, product: Option<Product>)

  /** JavaScript truthiness (NaN is not modelled). */
  predicate Truthy(raw: Raw) {
    match raw
    case Undefined => false
    case Null => false
    case Bool(b) => b
    case Number(n) => n != 0.0
    case Str(s) => s != ""
    case Object(_, _, _) => true
  }

  /**
   * The object `sdk.field.setValue(data)` stores for a flat record: a truthy
   * object carrying every flat key with the record's value, and no nested
   * `variant` or `product`.
   */
  function Stored(r: FlatRecord): (raw: Raw)
    ensures Truthy(raw) && raw.Object? && raw.variant.None? && raw.product.None?
    ensures raw.flat.Some? && raw.flat.value.options == Some(r.options)
    ensures var f := raw.flat.value;
      && f.variantId == r.variantId && f.variantSku == r.variantSku && f.productId == r.productId
      && f.productName == r.productName && f.price == r.price && f.imageUrl == r.imageUrl
  {
    Object(Some(StoredFlat(r.variantId, r.variantSku, r.productId, r.productName, r.price, r.imageUrl, Some(r.options))),
      None, None)
  }

  /** `selectedVariantInfo`: the product (absent when a nested record lacks one) and the variant. */
  datatype Selection = Selection(product: Option<Product>, variant: Variant)

  /** `options.map(opt => ({option_display_name: opt.name, label: opt.value}))` */
  function DecodeOptions(opts: seq<FlatOption>): (ovs: seq<OptionValue>)
    ensures |ovs| == |opts|
    ensures forall i :: 0 <= i < |opts| ==>
      ovs[i].id.None? && ovs[i].optionDisplayName == opts[i].name && ovs[i].labelText == opts[i].value
  {
    if opts == [] then [] else [OptionValue(None, opts[0].value, opts[0].name)] + DecodeOptions(opts[1..])
  }

  /**
   * The selection rebuilt from a flat record: the variant gets id, sku, price
   * and the options mapped back; the product gets id, name and, only when the
   * stored image is non-empty, a primary image with that thumbnail. Nothing
   * else is filled in.
   */
  function Rebuild(f: StoredFlat): (sel: Selection)
    ensures sel.product.Some?
    ensures sel.variant.sku == f.variantSku && sel.variant.id == f.variantId && sel.variant.price == f.price
    ensures sel.variant.calculatedPrice.None? && sel.variant.productId.None?
    ensures sel.product.value.id == f.productId && sel.product.value.name == f.productName
    ensures sel.product.value.primaryImage.Some? <==> f.imageUrl != ""
    ensures sel.product.value.images.None? && sel.product.value.variants.None?
    ensures sel.variant.inventoryLevel.None? && sel.variant.imageUrl.None?
    ensures sel.product.value.sku.None? && sel.product.value.price.None? && sel.product.value.calculatedPrice.None?
    ensures sel.variant.optionValues == Some(DecodeOptions(if f.options.Some? then f.options.value else []))
    ensures sel.product.value.primaryImage.Some? ==> sel.product.value.primaryImage.value == Image(Some(f.imageUrl), None)
  {
    var options := if f.options.Some? then f.options.value else [];
    Selection(
      Some(Product(f.productId, f.productName, None, None, None, None,
        if f.imageUrl != "" then Some(Image(Some(f.imageUrl), None)) else None,
        None)),
      Variant(f.variantId, None, f.variantSku, f.price, None, None, None, Some(DecodeOptions(options))))
  }

  /** What a stored value does to the session's displayed SKU and selection. */
  datatype Restoration =
    | Restore(selection: Selection, sku: string)   // both are set
    | RestoreSku(sku: string)                       // only the displayed SKU is set
    | ClearSelection                                // both are reset
    | KeepState                                     // nothing changes

  /**
   * The value-change handler's reading of a stored value. The shapes are tried
   * in a fixed order: a non-empty `variantSku` first, then a `variant`, then a
   * string; a falsy value clears; any other value is ignored.
   */
  function Decode(raw: Raw): (d: Restoration)
    ensures d.ClearSelection? <==> !Truthy(raw)
    ensures raw.Object? && raw.flat.Some? && raw.flat.value.variantSku != ""
            ==> d == Restore(Rebuild(raw.flat.value), raw.flat.value.variantSku)
    ensures raw.Object? && !(raw.flat.Some? && raw.flat.value.variantSku != "") && raw.variant.Some?
            ==> d == Restore(Selection(raw.product, raw.variant.value), raw.variant.value.sku)
    ensures d.RestoreSku? <==> raw.Str? && raw.s != ""
    ensures d.RestoreSku? ==> d.sku == raw.s
    ensures d.KeepState? <==> Truthy(raw) && !raw.Str? && !(raw.Object? && ((raw.flat.Some? && raw.flat.value.variantSku != "") || raw.variant.Some?))
  {
    if !Truthy(raw) then ClearSelection
    else if raw.Object? && raw.flat.Some? && raw.flat.value.variantSku != "" then
      Restore(Rebuild(raw.flat.value), raw.flat.value.variantSku)
    else if raw.Object? && raw.variant.Some? then
      Restore(Selection(raw.product, raw.variant.value), raw.variant.value.sku)
    else if raw.Str? then RestoreSku(raw.s)
    else KeepState
  }

  lemma {:induction false} EncodeDecodeOptions(opts: seq<FlatOption>)
    ensures EncodeOptions(DecodeOptions(opts)) == opts
  {
    if opts != [] {
      EncodeDecodeOptions(opts[1..]);
    }
  }

  /** Mapping options to the stored form and back keeps every name and label in order; only the option ids are lost. */
  lemma {:induction false} DecodeEncodeOptions(ovs: seq<OptionValue>)
    ensures |DecodeOptions(EncodeOptions(ovs))| == |ovs|
    ensures forall i :: 0 <= i < |ovs| ==> DecodeOptions(EncodeOptions(ovs))[i] == ovs[i].(id := None)
  {
    if ovs != [] {
      DecodeEncodeOptions(ovs[1..]);
    }
  }

  /**
   * Re-encoding a selection rebuilt from a stored flat record writes back that
   * very record: the record loses nothing on the way through the display state.
   */
  lemma EncodeAfterRebuild(f: StoredFlat)
    ensures var sel := Rebuild(f);
      EncodeFlat(sel.product.value, sel.variant)
      == FlatRecord(f.variantId, f.variantSku, f.productId, f.productName, f.price, f.imageUrl,
                    if f.options.Some? then f.options.value else [])
  {
    var options := if f.options.Some? then f.options.value else [];
    EncodeDecodeOptions(options);
  }

  /**
   * Reading back what was stored for a pair with a non-empty SKU restores a
   * selection that shows the SKU, the stored price, the option pairs in order,
   * the product id, name and image, and that re-encodes to the same record.
   */
  lemma RestoreAfterEncode(product: Product, variant: Variant)
    requires variant.sku != ""
    ensures var d := Decode(Stored(EncodeFlat(product, variant)));
      && d.Restore?
      && d.sku == variant.sku
      && d.selection.variant.sku == variant.sku
      && d.selection.variant.id == variant.id
      && SelectedPrice(d.selection.variant) == SelectedPrice(variant)
      && EncodeOptions(OptionsOf(d.selection.variant)) == EncodeOptions(OptionsOf(variant))
      && d.selection.product.Some?
      && d.selection.product.value.id == product.id
      && d.selection.product.value.name == product.name
      && ProductImage(d.selection.product.value, "") == ProductImage(product, "")
      && EncodeFlat(d.selection.product.value, d.selection.variant) == EncodeFlat(product, variant)
  {
    var r := EncodeFlat(product, variant);
    var f := StoredFlat(r.variantId, r.variantSku, r.productId, r.productName, r.price, r.imageUrl, Some(r.options));
    EncodeAfterRebuild(f);
  }

  /** A record stored for a variant with an empty SKU is not recognised when read back, and changes nothing. */
  lemma EmptySkuIsNotRestored(product: Product, variant: Variant)
    requires variant.sku == ""
    ensures Decode(Stored(EncodeFlat(product, variant))) == KeepState
  {
  }
}
