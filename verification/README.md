# BigCommerce product picker for Contentful — a Dafny model

The app lets a Contentful editor pick a BigCommerce product variant and keep it in an entry. There are three ways in:

- **The field editor** stores the chosen variant as a flat record in a JSON field. It reads the record back whenever the field changes, and it also accepts two older stored shapes: a nested `{variant, product}` object and a bare SKU string.
- **The entry sidebar** inserts the variant into the entry's rich-text field `content`.
- **The rich-text field view** inserts the variant into its own rich-text field.

The sidebar and the rich-text view insert the same kind of link paragraph: a paragraph holding one link to `bc-product://<sku>?data=<encoded flat record>`. Only the link text differs: the sidebar writes `🛒 name - sku - £price` (src/locations/Sidebar.tsx:78), the rich-text view `name - sku` (src/locations/RichTextEmbed.tsx:45).

A picker dialog shows the variant browser. The browser loads products from the BigCommerce catalog API through a CORS proxy, shows one card per variant and marks the card whose SKU is currently selected.

The model has one module per part of the program:

| module | file | what it holds |
|---|---|---|
| `Catalog` | catalog.dfy | Product and variant records. The shared price rule (`calculated_price \|\| price`), the image fallback chain and the option line. |
| `Decimal` | decimal.dfy | Decimal rendering of the integers interpolated into URLs, with its parser. |
| `UriEncoding` | uri_encoding.dfy | `encodeURIComponent`: UTF-8 bytes, percent-encoded as in section 2.1 of RFC 3986, leaving ECMAScript's unreserved set alone. |
| `BigCommerce` | bigcommerce.dfy | The catalog client: the service class, URL and endpoint construction, headers, and the mapping from an HTTP exchange to a result or the single error message. |
| `VariantCodec` | variant_codec.dfy | The flat-record encoder shared by every view, the stored-value decoder with its fixed precedence, and the round trips. |
| `Dialog` | dialog.dfy | The serialisable projection the picker dialog closes with. |
| `VariantBrowser` | variant_browser.dfy | Card flattening and selected marking, the option line and image of a card, the view-state choice, and the loading/error/products state machine. |
| `RichText` | rich_text.dfy | The `paragraph > hyperlink > text` fragment and the `bc-product://` URI, with readers for both, plus the append-or-create document update. |
| `Field` | field.dfy | The field session: displayed SKU, selected pair, stored value, installation parameters. |
| `Sidebar` | sidebar.dfy | The sidebar's insert handler. |
| `RichTextEmbed` | rich_text_embed.dfy | The rich-text view's insert handler. |
| `Host` | host.dfy | Installation parameters and notices. |
| `Wrappers` | wrappers.dfy | `Option` and `Result`. |

Inputs from outside the program are parameters of the operations that use them:

- the network (`fetch`, as a function from request to outcome);
- the host's dialog (a function from invocation parameters to an optional result);
- `JSON.stringify` of the flat record;
- `Number.prototype.toFixed(2)`.

JavaScript truthiness is written out:

- an optional string counts only when it is defined and non-empty;
- an optional number counts only when it is defined and non-zero;
- an array counts even when it is empty, so a document with `content: []` is appended to.

Behaviour of the code worth knowing:

- **Price.** The stored price is `calculated_price || price` (src/locations/Field.tsx:134). A calculated price of 0 falls back to the list price.
- **Image.** The stored image is `primary_image?.url_thumbnail || images?.[0]?.url_thumbnail || ''` (src/locations/Field.tsx:135), so an empty thumbnail is skipped.
- **HTTP errors.** A non-2xx response is thrown inside the `try` and caught by the same handler as a network failure (src/services/bigcommerce.ts:69-81). Every failure is therefore the one fixed CORS/proxy message, and the status is lost (`BigCommerce.Complete`).
- **Unrecognised stored values.** The value-change handler has no branch for a truthy object with neither a non-empty `variantSku` nor a `variant` (src/locations/Field.tsx:60-90). Such a value changes nothing (`VariantCodec.Decode`, case `KeepState`).
- **Failed loads.** The load handler sets the error and never clears the products (src/components/VariantBrowser.tsx:50-55), so a failed load keeps the previously loaded products (`VariantBrowser.VariantBrowserState.EndLoad`). While the error is shown the grid is hidden (src/components/VariantBrowser.tsx:183).

## Model

| member | source | states |
|---|---|---|
| `Catalog.SelectedPrice` | src/components/VariantBrowser.tsx:82-85 | The price shown is the calculated price when it is defined and non-zero, otherwise the list price. |
| `Catalog.ProductImage` | src/components/VariantBrowser.tsx:76-80 | The image is the primary thumbnail if non-empty, else the first image's thumbnail if non-empty, else the fallback. |
| `Catalog.Join` | src/components/VariantBrowser.tsx:73 | Joining no items gives '' and joining one item gives that item. |
| `Catalog.JoinAppend` | src/components/VariantBrowser.tsx:70-74 | Joining two non-empty lists concatenated puts exactly one separator between the two joins. |
| `Catalog.OptionTexts` | src/components/VariantBrowser.tsx:72 | Option texts follow the options one for one and in order, each `name: label`. |
| `Catalog.FormatOptionValues` | src/components/VariantBrowser.tsx:70-74 | No options give ''; one option gives `name: label`; more options give a line that opens with the first option's `name: label`, so it holds a ':' right after the first name. |
| `Catalog.FormatOptionValuesSnoc` | src/locations/Field.tsx:157-161 | Adding an option at the end extends the option line by `, name: label` and leaves the earlier text unchanged. |
| `Decimal.NatToString` | src/services/bigcommerce.ts:86 | A natural number renders as a non-empty digit string with no leading zero unless it is 0. |
| `Decimal.IntToString` | src/services/bigcommerce.ts:86 | An integer renders as a non-empty run of digits, possibly preceded by one '-'. |
| `Decimal.ParseNatToString` | src/services/bigcommerce.ts:86 | Parsing a rendered natural number gives it back. |
| `Decimal.IntToStringRoundTrip` | src/services/bigcommerce.ts:86 | Parsing a rendered integer gives it back. |
| `Decimal.IntToStringInjective` | src/services/bigcommerce.ts:97 | Distinct product ids, pages or limits render as distinct text. |
| `UriEncoding.Utf8` | src/services/bigcommerce.ts:57 | A character becomes its UTF-8 bytes: itself below U+0080; 2 bytes with a 110xxxxx lead below U+0800; 3 bytes with a 1110xxxx lead below U+10000; otherwise 4 bytes with a 11110xxx lead. Every byte after the first is a 10xxxxxx continuation byte. |
| `UriEncoding.Utf8RoundTrip` | src/services/bigcommerce.ts:57 | Decoding a character's UTF-8 bytes gives back its code point. |
| `UriEncoding.Utf8Injective` | src/services/bigcommerce.ts:57 | Distinct characters have distinct UTF-8 bytes. |
| `UriEncoding.PercentBytes` | src/services/bigcommerce.ts:57 | Byte i becomes the triple at 3i: '%', then the upper-case hex digits of its high and of its low four bits. Nothing else is emitted. |
| `UriEncoding.EncodeChar` | src/services/bigcommerce.ts:57 | An unreserved character stays as it is. Any other becomes one `%XX` triple per UTF-8 byte, byte i at 3i with its two upper-case hex digits, so 1 to 4 triples and no reserved character survives. |
| `UriEncoding.EncodeUriComponent` | src/services/bigcommerce.ts:57 | The result is at least as long as the input, and every character is unreserved, '%' or a hex digit. |
| `UriEncoding.EncodeAppend` | src/services/bigcommerce.ts:92 | Encoding distributes over concatenation. |
| `UriEncoding.EncodeUnescapedIdentity` | src/services/bigcommerce.ts:92 | Text made only of unreserved characters is left unchanged. |
| `UriEncoding.EncodedHasNoDelimiter` | src/services/bigcommerce.ts:92 | Encoded text holds none of `? & = # / :`. |
| `BigCommerce.Complete` | src/services/bigcommerce.ts:69-81 | A request succeeds exactly when it gets a 2xx response with a parsed body, and then yields the body's `data`. Every other outcome fails with the one fixed CORS/proxy message. |
| `BigCommerce.FailuresIndistinguishable` | src/services/bigcommerce.ts:75-81 | Any two failed exchanges give the same result: the status is not preserved. |
| `BigCommerce.NumericParameterReadsBack` | src/services/bigcommerce.ts:86 | The value of a `name=<n>` parameter parses back to n. |
| `BigCommerce.ProductsEndpoint` | src/services/bigcommerce.ts:84-88 | The list endpoint is `/catalog/products`, one '?', and a query that is exactly `page=<page>`, `limit=<limit>` and the fixed `include=variants,images,primary_image`, in that order. |
| `BigCommerce.KeywordParameterSafe` | src/services/bigcommerce.ts:92 | The `keyword=` parameter holds no '&' or '?', whatever the keyword holds. |
| `BigCommerce.SearchEndpoint` | src/services/bigcommerce.ts:90-94 | The search endpoint is `/catalog/products`, one '?', and `keyword=<encoded keyword>` followed by the list query's three parameters. The keyword cannot add or end a parameter, whatever it holds. |
| `BigCommerce.VariantsEndpoint` | src/services/bigcommerce.ts:96-98 | The variants endpoint splits at '/' into `""`, `catalog`, `products`, the rendered id and `variants`, and that fourth segment parses back to the product id. |
| `BigCommerce.BigCommerceService.constructor` | src/services/bigcommerce.ts:45-52 | Keeps the store hash and token; the base URL is `https://api.bigcommerce.com/stores/<hash>/v3`; the proxy is on, at `https://corsproxy.io/?`. |
| `BigCommerce.BigCommerceService.RequestUrl` | src/services/bigcommerce.ts:56-58 | With the proxy off the target URL is fetched as it is. For a constructed service the URL is the proxy followed by the encoded full target URL `https://api.bigcommerce.com/stores/<hash>/v3<endpoint>`, and splits at '?' into exactly the proxy host and that encoded target. |
| `BigCommerce.BigCommerceService.RequestFor` | src/services/bigcommerce.ts:60-67 | The request is a GET of that URL with three headers: `X-Auth-Token` carries the access token, and `Content-Type` and `Accept` are `application/json`. |
| `BigCommerce.BigCommerceService.Request` | src/services/bigcommerce.ts:54-82 | `request` yields the body's `data` exactly when the exchange for its request brings a 2xx response with a parsed body, and otherwise the fixed message. |
| `BigCommerce.BigCommerceService.GetProducts` | src/services/bigcommerce.ts:84-88 | The exchange for the list endpoint of the given page and limit decides the result: its `data` on a 2xx response with a parsed body, the fixed message otherwise. |
| `BigCommerce.BigCommerceService.SearchProducts` | src/services/bigcommerce.ts:90-94 | The same, for the search endpoint of the keyword, page and limit. |
| `BigCommerce.BigCommerceService.GetProductVariants` | src/services/bigcommerce.ts:96-98 | The same, for the variants endpoint of the product id. |
| `BigCommerce.BigCommerceService.QueryDefaults` | src/services/bigcommerce.ts:84-94 | Without page and limit, listing and searching ask for page 1 with limit 50. |
| `VariantCodec.EncodeOptions` | src/locations/Field.tsx:136-139 | Stored options follow the variant's options one for one and in order, with `name` = display name and `value` = label. |
| `VariantCodec.EncodeFlat` | src/locations/Field.tsx:129-140 | The stored record carries the variant's id and SKU and the product's id and name. Its price is one of the variant's two prices, its image is '' or one of the product's two thumbnails, and its options follow the variant's options one for one as `{name: display name, value: label}`. |
| `VariantCodec.EncodedPrice` | src/locations/Field.tsx:134 | The stored price is `calculated_price` when it is defined and non-zero, else `price`. |
| `VariantCodec.EncodedImage` | src/locations/Field.tsx:135 | The stored image is the first non-empty of the primary thumbnail and the first image's thumbnail, else ''. |
| `VariantCodec.EncodedOptions` | src/locations/Field.tsx:136-139 | Stored options have the options' length and order and the right pairs; absent options store []. |
| `VariantCodec.Stored` | src/locations/Field.tsx:142 | `setValue(data)` stores a truthy object carrying every flat key with the record's value, the options included, and no nested `variant` or `product`. |
| `VariantCodec.DecodeOptions` | src/locations/Field.tsx:68-71 | Options read back one for one and in order, with display name = `name`, label = `value` and no id. |
| `VariantCodec.Rebuild` | src/locations/Field.tsx:63-78 | A flat record rebuilds a variant with its id, SKU, price and the stored options mapped back (absent options as []), and a product with its id and name. The product has a primary image, whose thumbnail is the stored image, exactly when the stored image is non-empty. Every other field of both is absent: the variant's calculated price, product id, inventory and image, the product's SKU, prices, images and variants. |
| `VariantCodec.Decode` | src/locations/Field.tsx:60-90 | Precedence: an object with a non-empty `variantSku` restores the rebuilt selection; otherwise an object with a `variant` restores that pair unchanged under `variant.sku`; a non-empty string sets only the SKU; a falsy value clears. Every other value changes nothing. |
| `VariantCodec.EncodeDecodeOptions` | src/locations/Field.tsx:68-71 | Stored options read back and stored again are unchanged. |
| `VariantCodec.DecodeEncodeOptions` | src/locations/Field.tsx:136-139 | Options stored and read back keep every display name and label in order; only the option ids are lost. |
| `VariantCodec.EncodeAfterRebuild` | src/locations/Field.tsx:63-78 | A selection rebuilt from a stored record re-encodes to that same record, with absent options as []. |
| `VariantCodec.RestoreAfterEncode` | src/locations/Field.tsx:129-140 | For a non-empty SKU, reading back the stored record restores that SKU and the same selected price. It also restores the option pairs in order, the product id, name and image, and a selection that re-encodes to the same record. |
| `VariantCodec.EmptySkuIsNotRestored` | src/locations/Field.tsx:62 | A record stored for a variant with an empty SKU is not recognised on reading and changes nothing. |
| `Dialog.ProjectVariant` | src/locations/Dialog.tsx:26-32 | The variant keeps id, SKU, price, calculated price and options unchanged; product id, inventory and image are dropped. |
| `Dialog.ProjectProduct` | src/locations/Dialog.tsx:33-39 | The product keeps id, name, SKU, primary image and images; its prices and variants are dropped. |
| `Dialog.HandOff` | src/locations/Dialog.tsx:22-41 | The dialog closes with the SKU it was given. |
| `Dialog.ProjectionPreservesEncoding` | src/locations/Dialog.tsx:24-40 | Storing the projected pair stores exactly the record the original pair would. |
| `Dialog.ProjectionIdempotent` | src/locations/Dialog.tsx:26-39 | Projecting an already projected pair changes nothing. |
| `Dialog.OpenBrowser` | src/locations/Dialog.tsx:45-50 | The browser gets the invocation's credentials, and its selected SKU is the invocation's `currentSku`. |
| `Dialog.HandOffFromCard` | src/components/VariantBrowser.tsx:215 | Clicking a card closes the dialog with the card's own SKU as both the result SKU and the variant SKU. The pair stores the card's record, and the product is one of the listed products. |
| `VariantBrowser.VariantCards` | src/components/VariantBrowser.tsx:187-224 | A product's cards are its variants in order, each with that product and marked exactly when its SKU is the selected one. |
| `VariantBrowser.Cards` | src/components/VariantBrowser.tsx:185-226 | Every card belongs to a listed product and to one of that product's variants. It is marked selected exactly when `selectedSku` equals its SKU, so an undefined `selectedSku` marks none. |
| `VariantBrowser.CardsAppend` | src/components/VariantBrowser.tsx:185-226 | The cards of two product lists concatenated are the cards of the first followed by those of the second. |
| `VariantBrowser.CardsCover` | src/components/VariantBrowser.tsx:185-226 | Every variant of every listed product has a card, marked exactly when its SKU is the selected one. |
| `VariantBrowser.CardsSkipEmpty` | src/components/VariantBrowser.tsx:186 | A product whose variants are absent or empty adds no card. |
| `VariantBrowser.SelectEvent` | src/components/VariantBrowser.tsx:215 | Clicking a card reports the card variant's own SKU, with the card's variant and product unchanged. |
| `VariantBrowser.VariantOptionText` | src/components/VariantBrowser.tsx:200-202 | A card reads "Default Variant" exactly when its variant has no options; otherwise its line opens with the first option's `name: label`. |
| `VariantBrowser.CardImage` | src/components/VariantBrowser.tsx:76-80 | The card image is never empty: the primary thumbnail if non-empty, else the first image's thumbnail if non-empty, else the 150px placeholder. |
| `VariantBrowser.ViewOf` | src/components/VariantBrowser.tsx:167-183 | The grid and the "No products found" message never show together. With nothing loading and no error exactly one of them shows. The grid needs a non-empty list. An error is shown as given and hides both. |
| `VariantBrowser.ProductQuery` | src/components/VariantBrowser.tsx:47-49 | A non-empty search term queries the search endpoint for page 1 of 50; an absent or empty one queries the unfiltered list. |
| `VariantBrowser.VariantBrowserState.constructor` | src/components/VariantBrowser.tsx:29-33 | The browser starts with an empty search term, no products, not loading, no error and no service. |
| `VariantBrowser.VariantBrowserState.BeginLoad` | src/components/VariantBrowser.tsx:44-45 | A load first sets loading and clears the error, leaving the products. |
| `VariantBrowser.VariantBrowserState.EndLoad` | src/components/VariantBrowser.tsx:50-55 | Loading ends. A success replaces the products; a failure keeps them and records the failure's message. |
| `VariantBrowser.VariantBrowserState.LoadProducts` | src/components/VariantBrowser.tsx:43-56 | After a load, loading is off. On success the products are the query's result and there is no error. On failure the products are unchanged and the error is the message. |
| `VariantBrowser.VariantBrowserState.Mount` | src/components/VariantBrowser.tsx:35-41 | With both credentials, a fresh service for them is created and the unfiltered list is loaded. Otherwise nothing changes. |
| `VariantBrowser.VariantBrowserState.HandleSearch` | src/components/VariantBrowser.tsx:58-62 | With no service nothing changes. Otherwise the current search term is loaded as above. |
| `VariantBrowser.VariantBrowserState.SetSearchTerm` | src/components/VariantBrowser.tsx:158 | Typing changes only the search term. |
| `RichText.LinkParagraph` | src/locations/RichTextEmbed.tsx:37-57 | The fragment is a paragraph with empty data holding one hyperlink, whose only data key is `uri` with the given URI, holding one unmarked text node with empty data and the given text. |
| `RichText.LinkOf` | src/locations/Sidebar.tsx:70-90 | A node reads back as a link exactly when it is the fragment built for that URI and text. |
| `RichText.LinkParagraphReadsBack` | src/locations/RichTextEmbed.tsx:37-57 | The fragment is a paragraph holding exactly one hyperlink, which holds exactly one unmarked text node, and it reads back as its URI and text. |
| `RichText.SplitAtLast` | src/locations/RichTextEmbed.tsx:40 | Splitting at the last occurrence of a character gives the parts before and after it, with none after it. |
| `RichText.SplitAtLastOf` | src/locations/RichTextEmbed.tsx:40 | The occurrence split at is the last one: the one with none after it. |
| `RichText.ProductUri` | src/locations/Sidebar.tsx:73 | A `bc-product://<sku>?data=<encoded payload>` URI starts with the scheme and the SKU, and reads back as the SKU, even one holding '?', and the encoded payload. |
| `RichText.AppendParagraph` | src/locations/Sidebar.tsx:93-104 | With a content list, the paragraph is appended last: earlier nodes are unchanged and in order, the length grows by one, and the document's type and data are kept. Otherwise the result is a fresh `document` with exactly that one paragraph. |
| `RichText.AppendTwice` | src/locations/RichTextEmbed.tsx:60-62 | Two inserts keep the earlier nodes and put the two paragraphs last, in insertion order. |
| `RichText.ProductParagraph` | src/locations/RichTextEmbed.tsx:23-40 | An inserted product paragraph reads back as a link with the given text. Its URI names the variant's SKU and carries the encoded serialisation of exactly the record the field stores for that pair. |
| `RichText.RichTextField.constructor` | src/locations/RichTextEmbed.tsx:20 | The field holds the document the host reports for it, or none. |
| `RichText.RichTextField.InsertParagraph` | src/locations/RichTextEmbed.tsx:60-71 | The field's value becomes the appended or new document; its content is the old content plus the paragraph. |
| `Sidebar.LinkText` | src/locations/Sidebar.tsx:78 | The sidebar's link text is the cart, a space, the rich-text view's `name - sku` text, then ` - £` and the formatted stored price; the product name starts at the third character. |
| `Sidebar.HandleSelectVariant` | src/locations/Sidebar.tsx:42-111 | Without a `content` field, an error is reported and nothing is written. Otherwise the product paragraph, labelled `🛒 name - sku - £price`, is appended or starts a new document, and `Product <sku> added to content` is reported. |
| `Sidebar.HandleOpenProductPicker` | src/locations/Sidebar.tsx:16-40 | Missing credentials report an error before the dialog opens and write nothing. The dialog gets the credentials and no current SKU. A closed dialog inserts nothing; a result is inserted as above. |
| `Sidebar.SidebarPayloadMatchesField` | src/locations/Sidebar.tsx:56-73 | The sidebar's link payload for a pair passed through the dialog is the field's record for the original pair, under the variant's SKU. |
| `RichTextEmbed.LinkText` | src/locations/RichTextEmbed.tsx:45 | The link text is the product name, then ` - `, then the variant SKU, and nothing else. |
| `RichTextEmbed.HandleSelectVariant` | src/locations/RichTextEmbed.tsx:17-78 | The product paragraph, labelled `name - sku`, is appended to the field's document or starts a new one, and success is reported. |
| `Field.PreviewImage` | src/locations/Field.tsx:163-167 | The preview image is never empty: the primary thumbnail if non-empty, else the first image's thumbnail if non-empty, else the 100px placeholder. |
| `Field.RestoredPreviewImage` | src/locations/Field.tsx:163-167 | The preview of a restored record shows the stored image, or the 100px placeholder when none was stored. |
| `Field.RestoredOptionText` | src/locations/Field.tsx:157-161 | The preview's option line is the same before storing and after reading back. |
| `Field.PickedCardRestores` | src/locations/Field.tsx:117-119 | Take a card with a non-empty SKU, picked in the dialog, stored by the field and read back. This restores the card's SKU and a selection that stores the card's pair again. |
| `Field.FieldSession.constructor` | src/locations/Field.tsx:11-57 | On mount the parameters are the installation's (or `{}`) and the stored value is read through the decoder. A falsy or unrecognised value leaves the input empty with nothing selected. |
| `Field.FieldSession.OnValueChanged` | src/locations/Field.tsx:60-90 | The session mirrors the new stored value and applies the decoder: restore both, set only the SKU, clear both, or change nothing. |
| `Field.FieldSession.SelectVariant` | src/locations/Field.tsx:126-149 | The input shows the SKU, the stored value is exactly the encoded record, the pair is kept for the preview, and `Selected variant: <sku>` is reported. |
| `Field.FieldSession.Clear` | src/locations/Field.tsx:151-155 | The input is empty, the stored value is null and nothing is selected. |
| `Field.FieldSession.OpenDialog` | src/locations/Field.tsx:98-124 | Missing credentials report an error before the dialog opens and change nothing. The dialog gets the credentials and the displayed SKU. A closed dialog changes nothing; a result is selected as above. |

## Left out

- React rendering, JSX layout and the emotion styles of every view: these are presentation.
- Price text: the `£`/`toFixed(2)` text in the field and the browser is presentation. The sidebar's link label takes `toFixed(2)` as a parameter.
- Host SDK calls are replaced by state and parameters: `openCurrentApp`, the notifier (an outcome tag), `startAutoResizer`, and subscribing and detaching `onValueChanged`.
- `fetch`, `response.json()` and `async`/`await`:
  - the exchange is a parameter whose outcome is a network error or a response with status and parsed-or-unparseable body;
  - a parsed body is assumed to carry `data` (a body without it would yield `undefined`).
- `JSON.stringify` and `toFixed(2)` are parameters; their output is not modelled.
- NaN prices, and strings with unpaired UTF-16 surrogates (which make `encodeURIComponent` throw): strings are sequences of Unicode scalar values.
- Stale results: two overlapping loads in the browser completing out of order. This is concurrency; each `LoadProducts` is one atomic step.
- In-place mutation and aliasing. The handlers push onto the document object returned by `getValue` and then write it back. The model replaces the field's value by the appended document, which is the value written.
- Host failures:
  - a rejected `setValue` or `getValue`, which the sidebar and the rich-text view would report as `Failed to insert product: …`;
  - a rejected dialog, which is only logged;
  - a throwing `setValue` in the field, whose promise is not awaited, so its `catch` does not see it.
- The browser's `'Failed to load products'` fallback: the service only throws `Error`s, so the message is always the service's.
- Field.FieldSession.constructor: for a truthy stored value of no known shape (a number, `true`, an object with neither `variantSku` nor `variant`), the source's initial `value` is that raw value itself. The model shows '' instead.
- VariantCodec.Decode: a stored flat object is assumed to carry every key the encoder writes (`options` may be missing). A flat object that lacks some of them, such as `{variantSku: "X"}`, is not represented; the source would rebuild it with `undefined` ids, name, price and image.
- Integers: ids, page and limit are unbounded integers, and `${n}` is rendered as plain decimal digits. This matches JavaScript for the safe integers the code uses (the defaults 1 and 50, catalog ids), but not for numbers of 1e21 and above (exponent notation), fractional numbers, or integers beyond 2^53.
- Rendering a nested stored record that has no `product` is not modelled (the preview would fail); the model keeps such a selection with no product.
- Configuration screen, entry editor and page locations: they only pass parameters or `{variant, product}` through. The content-type provisioning script is management-API I/O.
