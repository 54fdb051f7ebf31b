/**
 * The catalog records returned by the BigCommerce API, and the three read-only
 * views over them that the field, the browser and the codec share: the price a
 * variant is shown and stored with, the image a product is shown with, and the
 * one-line text of a variant's options.
 *
 * A field is `Option`al exactly where some path of the program leaves it
 * undefined: the interface marks it optional, the dialog's hand-off drops it,
 * or a record rebuilt from storage does not carry it.
 */
module Catalog {
  import opened Wrappers

  datatype OptionValue = OptionValue(id: Option<int>, labelText: string, optionDisplayName: string)

  datatype Variant = Variant(
    id: int,
    productId: Option<int>,
    sku: string,
    price: real,
    calculatedPrice: Option<real>,
    inventoryLevel: Option<int>,
    imageUrl: Option<string>,
    optionValues: Option<seq<OptionValue>>)

  datatype Image = Image(urlThumbnail: Option<string>, urlStandard: Option<string>)

  datatype Product = Product(
    id: int,
    name: string,
    sku: Option<string>,
    price: Option<real>,
    calculatedPrice: Option<real>,
    variants: Option<seq<Variant>>,
    primaryImage: Option<Image>,
    images: Option<seq<Image>>)

  /** JavaScript truthiness of an optional string: defined and not empty. */
  predicate Present(s: Option<string>) {
    s.Some? && s.value != ""
  }

  /** JavaScript truthiness of an optional number: defined and not zero (NaN is not modelled). */
  predicate NonZero(n: Option<real>) {
    n.Some? && n.value != 0.0
  }

  /**
   * `variant.calculated_price || variant.price`: the calculated price wins only
   * when it is defined and non-zero; a calculated price of 0 falls back to the list price.
   */
  function SelectedPrice(v: Variant): (p: real)
    ensures NonZero(v.calculatedPrice) ==> p == v.calculatedPrice.value
    ensures !NonZero(v.calculatedPrice) ==> p == v.price
  {
    if NonZero(v.calculatedPrice) then v.calculatedPrice.value else v.price
  }

  /** `product.primary_image?.url_thumbnail` as an optional string. */
  function PrimaryThumbnail(p: Product): Option<string> {
    if p.primaryImage.Some? then p.primaryImage.value.urlThumbnail else None
  }

  /** `product.images?.[0]?.url_thumbnail` as an optional string. */
  function FirstImageThumbnail(p: Product): Option<string> {
    if p.images.Some? && |p.images.value| > 0 then p.images.value[0].urlThumbnail else None
  }

  /**
   * `primary_image?.url_thumbnail || images?.[0]?.url_thumbnail || fallback`:
   * the first non-empty thumbnail, else the fallback. The codec uses '' as the
   * fallback; the field and the browser use a placeholder image URL.
   */
  function ProductImage(p: Product, fallback: string): (url: string)
    ensures Present(PrimaryThumbnail(p)) ==> url == PrimaryThumbnail(p).value
    ensures !Present(PrimaryThumbnail(p)) && Present(FirstImageThumbnail(p)) ==> url == FirstImageThumbnail(p).value
    ensures !Present(PrimaryThumbnail(p)) && !Present(FirstImageThumbnail(p)) ==> url == fallback
  {
    if Present(PrimaryThumbnail(p)) then PrimaryThumbnail(p).value
    else if Present(FirstImageThumbnail(p)) then FirstImageThumbnail(p).value
    else fallback
  }

  /** `${opt.option_display_name}: ${opt.label}` */
  function OptionText(o: OptionValue): string {
    o.optionDisplayName + ": " + o.labelText
  }

  /** `items.join(sep)` */
  function Join(items: seq<string>, sep: string): (s: string)
    ensures items == [] ==> s == ""
    ensures |items| == 1 ==> s == items[0]
  {
    if items == [] then ""
    else if |items| == 1 then items[0]
    else items[0] + sep + Join(items[1..], sep)
  }

  /** Joining two non-empty lists puts exactly one separator between their joins. */
  lemma {:induction false} JoinAppend(a: seq<string>, b: seq<string>, sep: string)
    requires a != [] && b != []
    ensures Join(a + b, sep) == Join(a, sep) + sep + Join(b, sep)
  {
    if |a| == 1 {
      assert (a + b)[1..] == b;
    } else {
      assert (a + b)[1..] == a[1..] + b;
      JoinAppend(a[1..], b, sep);
    }
  }

  function OptionTexts(ovs: seq<OptionValue>): (texts: seq<string>)
    ensures |texts| == |ovs|
    ensures forall i :: 0 <= i < |ovs| ==> texts[i] == OptionText(ovs[i])
  {
    if ovs == [] then [] else [OptionText(ovs[0])] + OptionTexts(ovs[1..])
  }

  /** A join starts with its first item. */
  lemma JoinStartsWithFirst(items: seq<string>, sep: string)
    requires items != []
    ensures items[0] <= Join(items, sep)
  {
    if |items| > 1 {
      assert Join(items, sep) == items[0] + (sep + Join(items[1..], sep));
    }
  }

  /**
   * `variant.option_values.map(o => `${o.option_display_name}: ${o.label}`).join(', ')`:
   * empty for no options, the one option's text for one, and otherwise text
   * that opens with the first option's `name: label`.
   */
  function FormatOptionValues(ovs: seq<OptionValue>): (s: string)
    ensures ovs == [] ==> s == ""
    ensures |ovs| == 1 ==> s == OptionText(ovs[0])
    ensures ovs != [] ==> OptionText(ovs[0]) <= s && s[|ovs[0].optionDisplayName|] == ':'
  {
    var texts := OptionTexts(ovs);
    if ovs == [] then Join(texts, ", ")
    else
      JoinStartsWithFirst(texts, ", ");
      assert OptionText(ovs[0])[|ovs[0].optionDisplayName|] == ':';
      Join(texts, ", ")
  }

  /** Formatting a longer option list extends the text of the shorter one by ", name: label". */
  lemma FormatOptionValuesSnoc(ovs: seq<OptionValue>, o: OptionValue)
    requires ovs != []
    ensures FormatOptionValues(ovs + [o]) == FormatOptionValues(ovs) + ", " + OptionText(o)
  {
    assert OptionTexts(ovs + [o]) == OptionTexts(ovs) + [OptionText(o)];
    JoinAppend(OptionTexts(ovs), [OptionText(o)], ", ");
  }
}
