/**
 * The BigCommerce catalog client: a service object built from the store hash
 * and access token, the endpoint texts of its three queries, the request it
 * issues for an endpoint, and the mapping from the HTTP exchange to a result.
 *
 * The exchange itself is a parameter `fetch`, standing for the browser's
 * network call and JSON parsing: given the request, it tells what came back.
 */
module BigCommerce {
  import opened Wrappers
  import opened Catalog
  import Decimal
  import UriEncoding

  const ApiRoot := "https://api.bigcommerce.com/stores/"
  const ApiVersion := "/v3"
  const CorsProxy := "https://corsproxy.io/?"
  const ProductsPath := "/catalog/products"
  const IncludeParameter := "include=variants,images,primary_image"
  const FetchFailedMessage :=
    "Failed to fetch data from BigCommerce. This may be due to CORS restrictions. "
    + "Please ensure your BigCommerce store allows requests from Contentful, or consider using a backend proxy."

  datatype Config = Config(storeHash: string, accessToken: string)

  datatype HttpRequest = HttpRequest(verb: string, url: string, headers: seq<(string, string)>)

  /** What `response.json()` gives: a parse failure, or a body whose `data` field is read. */
  datatype JsonBody<+T> = Unparseable | Body(data: T)

  /** What the network call gives: a failure before any response, or a response. */
  datatype FetchOutcome<+T> = NetworkError | Response(status: int, statusText: string, body: JsonBody<T>)

  /** `response.ok` */
  predicate Ok(status: int) {
    200 <= status <= 299
  }

  /** An exchange that brought a 2xx response with a parsed body. */
  predicate Delivered<T>(outcome: FetchOutcome<T>) {
    outcome.Response? && Ok(outcome.status) && outcome.body.Body?
  }

  /**
   * The result of `request` for a given exchange. A non-2xx status is thrown
   * inside the `try` and caught by the same handler as a network or parse
   * failure, so every failure carries the one fixed message and the status is lost.
   */
  function Complete<T>(outcome: FetchOutcome<T>): (r: Result<T, string>)
    ensures r.Success? <==> Delivered(outcome)
    ensures r.Success? ==> r.value == outcome.body.data
    ensures r.Failure? ==> r.error == FetchFailedMessage
  {
    match outcome
    case NetworkError => Failure(FetchFailedMessage)
    case Response(status, _, body) =>
      if !Ok(status) then Failure(FetchFailedMessage)
      else if body.Unparseable? then Failure(FetchFailedMessage)
      else Success(body.data)
  }

  /** Two failed exchanges cannot be told apart by their results, whatever their statuses. */
  lemma FailuresIndistinguishable<T>(a: FetchOutcome<T>, b: FetchOutcome<T>)
    requires Complete(a).Failure? && Complete(b).Failure?
    ensures Complete(a) == Complete(b)
  {
  }

  /** The query parameters of the list query, in order. */
  function ProductsParameters(page: int, limit: int): seq<string> {
    ["page=" + Decimal.IntToString(page), "limit=" + Decimal.IntToString(limit), IncludeParameter]
  }

  /** The query parameters of the search query, in order. */
  function SearchParameters(keyword: string, page: int, limit: int): seq<string> {
    ["keyword=" + UriEncoding.EncodeUriComponent(keyword)] + ProductsParameters(page, limit)
  }

  /** `s.split(sep)` for a one-character separator. */
  function SplitOn(s: string, sep: char): (parts: seq<string>)
    ensures |parts| >= 1
  {
    if s == [] then [""]
    else if s[0] == sep then [""] + SplitOn(s[1..], sep)
    else
      var rest := SplitOn(s[1..], sep);
      [[s[0]] + rest[0]] + rest[1..]
  }

  lemma {:induction false} SplitOnWithout(s: string, sep: char)
    requires sep !in s
    ensures SplitOn(s, sep) == [s]
  {
    if s != [] {
      assert s[0] != sep;
      SplitOnWithout(s[1..], sep);
      assert [s[0]] + s[1..] == s;
    }
  }

  lemma {:induction false} SplitOnFirst(a: string, sep: char, b: string)
    requires sep !in a
    ensures SplitOn(a + [sep] + b, sep) == [a] + SplitOn(b, sep)
  {
    var s := a + [sep] + b;
    if a == [] {
      assert s[0] == sep && s[1..] == b;
    } else {
      assert s[0] == a[0] != sep;
      assert s[1..] == a[1..] + [sep] + b;
      SplitOnFirst(a[1..], sep, b);
      assert [a[0]] + a[1..] == a;
    }
  }

  /** The query parameters of an endpoint: the text after its one '?', split at '&'. */
  function QueryParameters(endpoint: string): seq<string> {
    var parts := SplitOn(endpoint, '?');
    if |parts| == 2 then SplitOn(parts[1], '&') else []
  }

  lemma QueryParametersOf(path: string, query: string)
    requires '?' !in path && '?' !in query
    ensures SplitOn(path + "?" + query, '?') == [path, query]
    ensures QueryParameters(path + "?" + query) == SplitOn(query, '&')
  {
    SplitOnFirst(path, '?', query);
    SplitOnWithout(query, '?');
  }

  /** Splitting a '&'-joined list of parameters that hold no '&' gives the list back. */
  lemma {:induction false} SplitJoined(params: seq<string>)
    requires params != []
    requires forall i :: 0 <= i < |params| ==> '&' !in params[i]
    ensures SplitOn(Join(params, "&"), '&') == params
  {
    if |params| == 1 {
      SplitOnWithout(params[0], '&');
    } else {
      SplitJoined(params[1..]);
      SplitOnFirst(params[0], '&', Join(params[1..], "&"));
      assert [params[0]] + params[1..] == params;
    }
  }

  lemma {:induction false} JoinedHasNoQuestionMark(params: seq<string>)
    requires forall i :: 0 <= i < |params| ==> '?' !in params[i]
    ensures '?' !in Join(params, "&")
  {
    if |params| > 1 {
      JoinedHasNoQuestionMark(params[1..]);
    }
  }

  /** The query parameters of `path?p1&p2&...` are p1, p2, ... when no part holds a delimiter. */
  lemma ParametersOfEndpoint(path: string, params: seq<string>)
    requires params != [] && '?' !in path
    requires forall i :: 0 <= i < |params| ==> '&' !in params[i] && '?' !in params[i]
    ensures SplitOn(path + "?" + Join(params, "&"), '?') == [path, Join(params, "&")]
    ensures QueryParameters(path + "?" + Join(params, "&")) == params
  {
    JoinedHasNoQuestionMark(params);
    QueryParametersOf(path, Join(params, "&"));
    SplitJoined(params);
  }

  lemma DecimalHasNoDelimiter(n: int)
    ensures '&' !in Decimal.IntToString(n) && '?' !in Decimal.IntToString(n)
  {
    var s := Decimal.IntToString(n);
    assert forall i :: 0 <= i < |s| ==> s[i] != '&' && s[i] != '?';
  }

  lemma EncodedHasNoDelimiter(s: string)
    ensures '&' !in UriEncoding.EncodeUriComponent(s) && '?' !in UriEncoding.EncodeUriComponent(s)
  {
    var e := UriEncoding.EncodeUriComponent(s);
    assert forall i :: 0 <= i < |e| ==> e[i] != '&' && e[i] != '?';
  }

  /** A parameter made of two parts without '&' or '?' holds neither. */
  lemma JoinedPartsSafe(name: string, value: string)
    requires '&' !in name && '?' !in name && '&' !in value && '?' !in value
    ensures '&' !in name + value && '?' !in name + value
  {
  }

  lemma PagePartSafe()
    ensures '&' !in "page=" && '?' !in "page="
  {
  }

  lemma LimitPartSafe()
    ensures '&' !in "limit=" && '?' !in "limit="
  {
  }

  lemma IncludeParameterSafe()
    ensures '&' !in IncludeParameter && '?' !in IncludeParameter
  {
  }

  /** No parameter of the list query holds a '&' or a '?'. */
  lemma ProductsParametersSafe(page: int, limit: int)
    ensures forall i :: 0 <= i < |ProductsParameters(page, limit)| ==>
      '&' !in ProductsParameters(page, limit)[i] && '?' !in ProductsParameters(page, limit)[i]
  {
    var ps := ProductsParameters(page, limit);
    DecimalHasNoDelimiter(page);
    DecimalHasNoDelimiter(limit);
    PagePartSafe();
    LimitPartSafe();
    IncludeParameterSafe();
    JoinedPartsSafe("page=", Decimal.IntToString(page));
    JoinedPartsSafe("limit=", Decimal.IntToString(limit));
    assert ps == ["page=" + Decimal.IntToString(page), "limit=" + Decimal.IntToString(limit), IncludeParameter];
    forall i | 0 <= i < |ps|
      ensures '&' !in ps[i] && '?' !in ps[i]
    {
      assert i == 0 || i == 1 || i == 2;
    }
  }

  /** A numeric parameter `name=${n}` reads back as n. */
  lemma NumericParameterReadsBack(name: string, n: int)
    ensures Decimal.ParseInt((name + "=" + Decimal.IntToString(n))[|name| + 1..]) == Some(n)
  {
    assert (name + "=" + Decimal.IntToString(n))[|name| + 1..] == Decimal.IntToString(n);
    Decimal.IntToStringRoundTrip(n);
  }

  /**
   * `/catalog/products?page=${page}&limit=${limit}&include=variants,images,primary_image`:
   * the products path, one '?', and then exactly a page, a limit and the
   * fixed include list, in that order.
   */
  function ProductsEndpoint(page: int, limit: int): (e: string)
    ensures SplitOn(e, '?')[0] == ProductsPath && |SplitOn(e, '?')| == 2
    ensures QueryParameters(e) == ["page=" + Decimal.IntToString(page), "limit=" + Decimal.IntToString(limit), IncludeParameter]
  {
    ProductsParametersSafe(page, limit);
    ParametersOfEndpoint(ProductsPath, ProductsParameters(page, limit));
    ProductsPath + "?" + Join(ProductsParameters(page, limit), "&")
  }

  /** The keyword parameter holds no '&' or '?', whatever the keyword holds, since it is percent-encoded. */
  lemma KeywordParameterSafe(keyword: string)
    ensures '&' !in "keyword=" + UriEncoding.EncodeUriComponent(keyword)
    ensures '?' !in "keyword=" + UriEncoding.EncodeUriComponent(keyword)
  {
    EncodedHasNoDelimiter(keyword);
    assert '&' !in "keyword=" && '?' !in "keyword=";
    JoinedPartsSafe("keyword=", UriEncoding.EncodeUriComponent(keyword));
  }

  /** No parameter of the search query holds a '&' or a '?'. */
  lemma SearchParametersSafe(keyword: string, page: int, limit: int)
    ensures forall i :: 0 <= i < |SearchParameters(keyword, page, limit)| ==>
      '&' !in SearchParameters(keyword, page, limit)[i] && '?' !in SearchParameters(keyword, page, limit)[i]
  {
    var ps := SearchParameters(keyword, page, limit);
    KeywordParameterSafe(keyword);
    ProductsParametersSafe(page, limit);
    assert forall i :: 1 <= i < |ps| ==> ps[i] == ProductsParameters(page, limit)[i - 1];
  }

  /**
   * `/catalog/products?keyword=${encodeURIComponent(keyword)}&page=${page}&limit=${limit}&include=...`:
   * the keyword comes first and then the same three parameters as the list
   * query; since the keyword is percent-encoded it cannot add or end a
   * parameter, whatever it contains.
   */
  function SearchEndpoint(keyword: string, page: int, limit: int): (e: string)
    ensures SplitOn(e, '?')[0] == ProductsPath && |SplitOn(e, '?')| == 2
    ensures QueryParameters(e)
         == ["keyword=" + UriEncoding.EncodeUriComponent(keyword),
             "page=" + Decimal.IntToString(page), "limit=" + Decimal.IntToString(limit), IncludeParameter]
  {
    SearchParametersSafe(keyword, page, limit);
    ParametersOfEndpoint(ProductsPath, SearchParameters(keyword, page, limit));
    ProductsPath + "?" + Join(SearchParameters(keyword, page, limit), "&")
  }

  /** Splitting a path of four separated parts that hold no separator gives the parts back. */
  lemma SplitFourParts(a: string, b: string, c: string, d: string, sep: char)
    requires sep !in a && sep !in b && sep !in c && sep !in d
    ensures SplitOn(a + [sep] + (b + [sep] + (c + [sep] + d)), sep) == [a, b, c, d]
  {
    SplitOnWithout(d, sep);
    SplitOnFirst(c, sep, d);
    SplitOnFirst(b, sep, c + [sep] + d);
    SplitOnFirst(a, sep, b + [sep] + (c + [sep] + d));
  }

  lemma VariantsPathLayout(id: string)
    ensures ProductsPath + "/" + id + "/variants"
         == ['/'] + ("catalog" + ['/'] + ("products" + ['/'] + (id + ['/'] + "variants")))
  {
    assert ProductsPath == ['/'] + "catalog" + ['/'] + "products";
    assert "/variants" == ['/'] + "variants";
  }

  lemma PathWordsHaveNoSlash()
    ensures '/' !in "catalog" && '/' !in "products" && '/' !in "variants"
  {
  }

  /** Splitting a rooted path of four parts that hold no separator gives '' and the parts. */
  lemma SplitRootedFourParts(a: string, b: string, c: string, d: string, sep: char)
    requires sep !in a && sep !in b && sep !in c && sep !in d
    ensures SplitOn([sep] + (a + [sep] + (b + [sep] + (c + [sep] + d))), sep) == ["", a, b, c, d]
  {
    var rest := a + [sep] + (b + [sep] + (c + [sep] + d));
    SplitFourParts(a, b, c, d, sep);
    SplitOnFirst([], sep, rest);
    assert [] + [sep] + rest == [sep] + rest;
  }

  /** The segments of `/catalog/products/<id>/variants` for an id without '/'. */
  lemma VariantsPathSegments(id: string)
    requires '/' !in id
    ensures SplitOn(ProductsPath + "/" + id + "/variants", '/') == ["", "catalog", "products", id, "variants"]
  {
    PathWordsHaveNoSlash();
    SplitRootedFourParts("catalog", "products", id, "variants", '/');
    VariantsPathLayout(id);
  }

  /**
   * `/catalog/products/${productId}/variants`: the path whose fourth segment
   * is the product id, and that segment reads back as that id.
   */
  function VariantsEndpoint(productId: int): (e: string)
    ensures SplitOn(e, '/') == ["", "catalog", "products", Decimal.IntToString(productId), "variants"]
    ensures Decimal.ParseInt(SplitOn(e, '/')[3]) == Some(productId)
  {
    var id := Decimal.IntToString(productId);
    assert '/' !in id by {
      assert forall i :: 0 <= i < |id| ==> id[i] != '/';
    }
    VariantsPathSegments(id);
    Decimal.IntToStringRoundTrip(productId);
    ProductsPath + "/" + id + "/variants"
  }

  lemma ProxyLayout()
    ensures '?' !in "https://corsproxy.io/"
    ensures CorsProxy == "https://corsproxy.io/" + ['?']
  {
  }

  /** A target without '?' behind the proxy splits at '?' into the proxy host and the target. */
  lemma ProxiedUrlSplits(target: string)
    requires '?' !in target
    ensures SplitOn(CorsProxy + target, '?') == ["https://corsproxy.io/", target]
  {
    ProxyLayout();
    SplitOnFirst("https://corsproxy.io/", '?', target);
    SplitOnWithout(target, '?');
  }

  /** The value of the first header with the given name. */
  function HeaderValue(headers: seq<(string, string)>, name: string): Option<string> {
    if headers == [] then None
    else if headers[0].0 == name then Some(headers[0].1)
    else HeaderValue(headers[1..], name)
  }

  class BigCommerceService {
    const storeHash: string
    const accessToken: string
    const baseUrl: string
    const useCorsProxy: bool
    const corsProxyUrl: string

    /** What the constructor establishes: the base URL of the store, and the proxy switched on. */
    predicate Valid() {
      && baseUrl == ApiRoot + storeHash + ApiVersion
      && useCorsProxy
      && corsProxyUrl == CorsProxy
    }

    constructor (config: Config)
      ensures storeHash == config.storeHash && accessToken == config.accessToken
      ensures Valid()
    {
      storeHash := config.storeHash;
      accessToken := config.accessToken;
      baseUrl := ApiRoot + config.storeHash + ApiVersion;
      useCorsProxy := true;
      corsProxyUrl := CorsProxy;
    }

    /**
     * The URL fetched for an endpoint: the whole target URL encoded behind the
     * proxy, or the target itself with the proxy off. Behind the proxy of a
     * constructed service the URL has one '?', followed by the encoded store
     * URL of the endpoint.
     */
    function RequestUrl(endpoint: string): (url: string)
      ensures !useCorsProxy ==> url == baseUrl + endpoint
      ensures Valid() ==> url == CorsProxy + UriEncoding.EncodeUriComponent(ApiRoot + storeHash + ApiVersion + endpoint)
      ensures Valid() ==> SplitOn(url, '?') == ["https://corsproxy.io/", UriEncoding.EncodeUriComponent(baseUrl + endpoint)]
    {
      var target := UriEncoding.EncodeUriComponent(baseUrl + endpoint);
      EncodedHasNoDelimiter(baseUrl + endpoint);
      ProxiedUrlSplits(target);
      if useCorsProxy then corsProxyUrl + target else baseUrl + endpoint
    }

    /** The request for an endpoint: a GET of its URL carrying the access token and the JSON headers. */
    function RequestFor(endpoint: string): (r: HttpRequest)
      ensures r.verb == "GET" && r.url == RequestUrl(endpoint) && |r.headers| == 3
      ensures HeaderValue(r.headers, "X-Auth-Token") == Some(accessToken)
      ensures HeaderValue(r.headers, "Content-Type") == Some("application/json")
      ensures HeaderValue(r.headers, "Accept") == Some("application/json")
    {
      var headers := [("X-Auth-Token", accessToken), ("Content-Type", "application/json"), ("Accept", "application/json")];
      assert "Accept" != "X-Auth-Token" && "Accept" != "Content-Type" by {
        assert |"Accept"| == 6 && |"X-Auth-Token"| == 12 && |"Content-Type"| == 12;
      }
      assert HeaderValue(headers[2..], "Accept") == Some("application/json");
      assert headers[1..][1..] == headers[2..];
      HttpRequest("GET", RequestUrl(endpoint), headers)
    }

    /**
     * `request<T>(endpoint)`: the body's `data` exactly when the exchange
     * brings a 2xx response with a parsed body, otherwise the fixed message.
     */
    function Request<T>(endpoint: string, fetch: HttpRequest -> FetchOutcome<T>): (r: Result<T, string>)
      ensures var outcome := fetch(RequestFor(endpoint));
        && (r.Success? <==> Delivered(outcome))
        && (r.Success? ==> r.value == outcome.body.data)
        && (r.Failure? ==> r.error == FetchFailedMessage)
    {
      Complete(fetch(RequestFor(endpoint)))
    }

    /** `getProducts(page = 1, limit = 50)`: the exchange for the list endpoint decides the result. */
    function GetProducts(fetch: HttpRequest -> FetchOutcome<seq<Product>>, page: int := 1, limit: int := 50)
      : (r: Result<seq<Product>, string>)
      ensures var outcome := fetch(RequestFor(ProductsEndpoint(page, limit)));
        && (r.Success? <==> Delivered(outcome))
        && (r.Success? ==> r.value == outcome.body.data)
        && (r.Failure? ==> r.error == FetchFailedMessage)
    {
      Request(ProductsEndpoint(page, limit), fetch)
    }

    /** `searchProducts(keyword, page = 1, limit = 50)`: the exchange for the search endpoint decides the result. */
    function SearchProducts(fetch: HttpRequest -> FetchOutcome<seq<Product>>, keyword: string,
                            page: int := 1, limit: int := 50)
      : (r: Result<seq<Product>, string>)
      ensures var outcome := fetch(RequestFor(SearchEndpoint(keyword, page, limit)));
        && (r.Success? <==> Delivered(outcome))
        && (r.Success? ==> r.value == outcome.body.data)
        && (r.Failure? ==> r.error == FetchFailedMessage)
    {
      Request(SearchEndpoint(keyword, page, limit), fetch)
    }

    /** `getProductVariants(productId)`: the exchange for the variants endpoint decides the result. */
    function GetProductVariants(fetch: HttpRequest -> FetchOutcome<seq<Variant>>, productId: int)
      : (r: Result<seq<Variant>, string>)
      ensures var outcome := fetch(RequestFor(VariantsEndpoint(productId)));
        && (r.Success? <==> Delivered(outcome))
        && (r.Success? ==> r.value == outcome.body.data)
        && (r.Failure? ==> r.error == FetchFailedMessage)
    {
      Request(VariantsEndpoint(productId), fetch)
    }

    /** Called without page and limit, the list and search queries ask for page 1 of 50. */
    lemma QueryDefaults(fetch: HttpRequest -> FetchOutcome<seq<Product>>, keyword: string)
      ensures GetProducts(fetch) == Request(ProductsEndpoint(1, 50), fetch)
      ensures SearchProducts(fetch, keyword) == Request(SearchEndpoint(keyword, 1, 50), fetch)
    {
    }
  }
}
