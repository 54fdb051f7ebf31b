/**
 * The rich-text side of an embed: the `bc-product://` link that carries a
 * product's flat record, the `paragraph > hyperlink > text` fragment that holds
 * it, and the append-or-create update of the document it is inserted into.
 */
module RichText {
  import opened Wrappers
  import opened UriEncoding
  import opened Catalog
  import opened VariantCodec

  /** A node of the rich-text tree: an element with children, or a text leaf. */
  datatype RichNode =
    | Element(nodeType: string, data: map<string, string>, content: seq<RichNode>)
    | Text(value: string, marks: seq<string>, data: map<string, string>)

  /** The value of a rich-text field; `content` is absent on a value that has no content list. */
  datatype Document = Document(nodeType: string, data: map<string, string>, content: Option<seq<RichNode>>)

  const ProductScheme := "bc-product://"
  const DataParameter := "data="

  /**
   * `{nodeType: 'paragraph', data: {}, content: [{nodeType: 'hyperlink', data: {uri}, content: [{nodeType: 'text', value: linkText, marks: [], data: {}}]}]}`:
   * a paragraph with no data around a single hyperlink, whose only data is
   * the URI, around a single unmarked text node holding the link text.
   */
  function LinkParagraph(uri: string, linkText: string): (n: RichNode)
    ensures n.Element? && n.nodeType == "paragraph" && n.data == map[] && |n.content| == 1
    ensures var link := n.content[0];
      && link.Element? && link.nodeType == "hyperlink" && link.data.Keys == {"uri"} && link.data["uri"] == uri
      && link.content == [Text(linkText, [], map[])]
  {
    Element("paragraph", map[], [Element("hyperlink", map["uri" := uri], [Text(linkText, [], map[])])])
  }

  /**
   * Reads a link paragraph back: a paragraph with empty data holding exactly
   * one hyperlink, whose only data is its URI, holding exactly one unmarked
   * text node with empty data. Any other node is not a link paragraph.
   */
  function LinkOf(n: RichNode): (r: Option<(string, string)>)
    ensures r.Some? ==> n == LinkParagraph(r.value.0, r.value.1)
  {
    if && n.Element? && n.nodeType == "paragraph" && n.data == map[] && |n.content| == 1
       && n.content[0].Element? && n.content[0].nodeType == "hyperlink"
       && n.content[0].data.Keys == {"uri"} && |n.content[0].content| == 1
       && n.content[0].content[0].Text? && n.content[0].content[0].marks == []
       && n.content[0].content[0].data == map[]
    then
      var link := n.content[0];
      var text := link.content[0];
      assert link.data == map["uri" := link.data["uri"]];
      assert text == Text(text.value, [], map[]);
      assert link.content == [text];
      assert link == Element("hyperlink", map["uri" := link.data["uri"]], [Text(text.value, [], map[])]);
      assert n.content == [link];
      Some((link.data["uri"], link.content[0].value))
    else None
  }

  /** The fragment built for a link is read back as that very link. */
  lemma LinkParagraphReadsBack(uri: string, linkText: string)
    ensures LinkOf(LinkParagraph(uri, linkText)) == Some((uri, linkText))
  {
    assert map["uri" := uri].Keys == {"uri"};
  }

  /** Splits at the last occurrence of `c`: what precedes it and what follows it. */
  function SplitAtLast(s: string, c: char): (r: Option<(string, string)>)
    ensures r.Some? ==> r.value.0 + [c] + r.value.1 == s && c !in r.value.1
    ensures r.None? ==> c !in s
    decreases |s|
  {
    if s == [] then None
    else if s[|s| - 1] == c then Some((s[..|s| - 1], []))
    else
      match SplitAtLast(s[..|s| - 1], c)
      case None => None
      case Some((a, b)) => Some((a, b + [s[|s| - 1]]))
  }

  /** When `c` does not occur after a given occurrence, that occurrence is the one split at. */
  lemma {:induction false} SplitAtLastOf(a: string, c: char, b: string)
    requires c !in b
    ensures SplitAtLast(a + [c] + b, c) == Some((a, b))
    decreases |b|
  {
    var s := a + [c] + b;
    if b == [] {
      assert s[..|s| - 1] == a;
    } else {
      var b' := b[..|b| - 1];
      assert s[..|s| - 1] == a + [c] + b';
      assert s[|s| - 1] == b[|b| - 1];
      assert c !in b' by {
        assert forall i :: 0 <= i < |b'| ==> b'[i] == b[i];
      }
      SplitAtLastOf(a, c, b');
      assert b' + [b[|b| - 1]] == b;
    }
  }

  /**
   * Reads a product URI back into the SKU and the still-encoded payload. The
   * last '?' is the separator, since the encoded payload holds none; a SKU
   * may itself contain '?'.
   */
  function ParseProductUri(uri: string): Option<(string, string)> {
    if |uri| >= |ProductScheme| && uri[..|ProductScheme|] == ProductScheme then
      match SplitAtLast(uri[|ProductScheme|..], '?')
      case None => None
      case Some((sku, query)) =>
        if |query| >= |DataParameter| && query[..|DataParameter|] == DataParameter
        then Some((sku, query[|DataParameter|..]))
        else None
    else None
  }

  /** A URI laid out as `bc-product://<sku>?data=<e>` parses back when `e` holds no '?'. */
  lemma ProductUriLayoutParses(sku: string, e: string)
    requires '?' !in e
    ensures ParseProductUri(ProductScheme + sku + "?" + DataParameter + e) == Some((sku, e))
  {
    var query := DataParameter + e;
    var uri := ProductScheme + sku + "?" + DataParameter + e;
    assert uri == ProductScheme + (sku + ['?'] + query);
    assert uri[|ProductScheme|..] == sku + ['?'] + query;
    assert '?' !in query by {
      assert forall i :: 0 <= i < |query| ==> query[i] != '?' by {
        assert forall i :: 0 <= i < |e| ==> e[i] == query[i + |DataParameter|];
      }
    }
    SplitAtLastOf(sku, '?', query);
    assert query[..|DataParameter|] == DataParameter;
    assert query[|DataParameter|..] == e;
  }

  /**
   * `bc-product://${sku}?data=${encodeURIComponent(payload)}`: the SKU and
   * the encoded payload are recovered from the URI, whatever the SKU holds.
   */
  function ProductUri(sku: string, payload: string): (uri: string)
    ensures |uri| > |ProductScheme| + |sku| && uri[..|ProductScheme| + |sku|] == ProductScheme + sku
    ensures ParseProductUri(uri) == Some((sku, EncodeUriComponent(payload)))
  {
    EncodedHasNoDelimiter(payload);
    ProductUriLayoutParses(sku, EncodeUriComponent(payload));
    ProductScheme + sku + "?" + DataParameter + EncodeUriComponent(payload)
  }

  /**
   * `if (currentValue && currentValue.content) { content.push(paragraph) } else { new document }`:
   * the paragraph is appended after the existing nodes of a document that has
   * a content list, and otherwise becomes the only paragraph of a fresh document.
   */
  function AppendParagraph(current: Option<Document>, paragraph: RichNode): (d: Document)
    ensures d.content.Some? && |d.content.value| >= 1 && d.content.value[|d.content.value| - 1] == paragraph
    ensures current.Some? && current.value.content.Some? ==>
      && d.nodeType == current.value.nodeType && d.data == current.value.data
      && |d.content.value| == |current.value.content.value| + 1
      && d.content.value[..|current.value.content.value|] == current.value.content.value
    ensures !(current.Some? && current.value.content.Some?) ==>
      d == Document("document", map[], Some([paragraph]))
  {
    if current.Some? && current.value.content.Some? then
      current.value.(content := Some(current.value.content.value + [paragraph]))
    else
      Document("document", map[], Some([paragraph]))
  }

  /** The existing nodes, or none when there is no content list yet. */
  function ContentOf(current: Option<Document>): seq<RichNode> {
    if current.Some? && current.value.content.Some? then current.value.content.value else []
  }

  /** Two inserts in a row keep the earlier nodes and put the two paragraphs last, in the order inserted. */
  lemma AppendTwice(current: Option<Document>, first: RichNode, second: RichNode)
    ensures ContentOf(Some(AppendParagraph(Some(AppendParagraph(current, first)), second)))
            == ContentOf(current) + [first, second]
  {
    var once := AppendParagraph(current, first);
    assert ContentOf(Some(once)) == ContentOf(current) + [first];
  }

  /**
   * The paragraph an embed inserts for a selected pair: it reads back as a
   * link with the given text whose URI names the variant's SKU and carries
   * the encoded serialisation of exactly the record the field would store for
   * the same pair.
   */
  function ProductParagraph(product: Product, variant: Variant, stringify: FlatRecord -> string, linkText: string)
    : (n: RichNode)
    ensures var link := LinkOf(n);
      && link.Some? && link.value.1 == linkText
      && ParseProductUri(link.value.0) == Some((variant.sku, EncodeUriComponent(stringify(EncodeFlat(product, variant)))))
  {
    var uri := ProductUri(variant.sku, stringify(EncodeFlat(product, variant)));
    LinkParagraphReadsBack(uri, linkText);
    LinkParagraph(uri, linkText)
  }

  /** `Product ${variant.sku} added to content` */
  function AddedMessage(variant: Variant): string {
    "Product " + variant.sku + " added to content"
  }

  /** The rich-text field an embed writes to. */
  class RichTextField {
    var value: Option<Document>

    constructor (value: Option<Document>)
      ensures this.value == value
    {
      this.value := value;
    }

    /** Insert a paragraph, then write the document back (`setValue`). */
    method InsertParagraph(paragraph: RichNode)
      modifies this
      ensures value == Some(AppendParagraph(old(value), paragraph))
      ensures ContentOf(value) == ContentOf(old(value)) + [paragraph]
    {
      value := Some(AppendParagraph(value, paragraph));
    }
  }
}
