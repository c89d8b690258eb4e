/** `shopdydy_scraper.py`: a product page read by per-field selector cascades, a listing page
    read from the first container selector that matches, and the run over the discovered
    product URLs, optionally cut to `max_products`. */
module ListingScraper {
  import opened Wrappers
  import opened Text
  import opened PriceText
  import opened Dom
  import opened Filtering

  // ---------------------------------------------------------------- a product page

  const NameSelectors: seq<string> := [
    "h1", ".product-title", ".product-name", "[data-product-title]", ".title", ".product h1",
    ".product-info h1", "h1.product-title"]
  const PriceSelectors: seq<string> := [
    ".price", ".product-price", "[data-price]", ".current-price", ".sale-price", ".price-current",
    ".product-price-current", ".money", ".amount"]
  const OriginalPriceSelectors: seq<string> := [
    ".original-price", ".regular-price", ".was-price", ".price-original", ".compare-price",
    ".old-price"]
  const DescriptionSelectors: seq<string> := [
    ".product-description", ".description", ".product-details", ".product-info",
    "[data-product-description]"]
  const ImageSelectors: seq<string> := [
    ".product-image img", ".product-photo img", ".main-image img", "img[data-product-image]",
    ".product img"]
  const AvailabilitySelectors: seq<string> := [
    ".availability", ".stock-status", ".in-stock", ".out-of-stock", "[data-availability]"]
  const SourceAttributes: seq<string> := ["src", "data-src"]

  /** The record `extract_product_info` fills in; `None` stands for Python's `None`. Its `brand`,
      `category` and `sku` are never set and are not kept. */
  datatype PageProduct = PageProduct(url: string, name: Option<string>, price: Option<real>,
                                     originalPrice: Option<real>, description: Option<string>,
                                     imageUrl: Option<string>, availability: Option<string>)

  /** A description element with more than 20 stripped characters. */
  predicate Substantial(n: Node) {
    |n.strippedText| > 20
  }

  /** An image element with a `src` or `data-src`. */
  predicate HasSource(n: Node) {
    FirstAttr(n.attrs, SourceAttributes) != ""
  }

  /** The description: the first 500 characters, with no ellipsis, of the first description
      element with more than 20 stripped characters. */
  function PageDescription(page: Element): (r: Option<string>)
    ensures r.Some? <==> exists j :: FirstUsable(page, DescriptionSelectors, Substantial, j)
    ensures forall j :: FirstUsable(page, DescriptionSelectors, Substantial, j) ==>
              var d := SelectOne(page, DescriptionSelectors[j]).value.strippedText;
              && r.Some?
              && |r.value| == (if |d| < 500 then |d| else 500)
              && r.value == d[..|r.value|]
  {
    match FirstNode(page, DescriptionSelectors, Substantial)
    case Some(n) => Some(Take(n.strippedText, 500))
    case None => None
  }

  /** The image: the resolved `src` (or `data-src`) of the first image selector whose element
      has one. */
  function PageImage(site: Site, page: Element): (r: Option<string>)
    ensures r.Some? <==> exists j :: FirstUsable(page, ImageSelectors, HasSource, j)
    ensures forall j :: FirstUsable(page, ImageSelectors, HasSource, j) ==>
              r == Some(site.urljoin(site.baseUrl,
                                     FirstAttr(SelectOne(page, ImageSelectors[j]).value.attrs, SourceAttributes)))
  {
    match FirstNode(page, ImageSelectors, HasSource)
    case Some(n) => Some(site.urljoin(site.baseUrl, FirstAttr(n.attrs, SourceAttributes)))
    case None => None
  }

  /** The name: the stripped text of the first name selector whose element has one. */
  function PageName(page: Element): (r: Option<string>)
    ensures r.Some? ==> r.value != ""
    ensures r.Some? <==> exists j :: FirstUsable(page, NameSelectors, HasText, j)
    ensures forall j :: FirstUsable(page, NameSelectors, HasText, j) ==>
              r == Some(SelectOne(page, NameSelectors[j]).value.strippedText)
  {
    var r := FirstText(page, NameSelectors, HasText);
    assert r.Some? ==> exists j :: FirstUsable(page, NameSelectors, HasText, j);
    r
  }

  /** The availability: the stripped text of the first availability element there is. */
  function PageAvailability(page: Element): (r: Option<string>)
    ensures r.Some? <==> exists j :: 0 <= j < |AvailabilitySelectors| && SelectOne(page, AvailabilitySelectors[j]).Some?
    ensures forall j :: FirstUsable(page, AvailabilitySelectors, Exists, j) ==>
              r == Some(SelectOne(page, AvailabilitySelectors[j]).value.strippedText)
  {
    var r := FirstText(page, AvailabilitySelectors, Exists);
    assert r.Some? ==> exists j :: FirstUsable(page, AvailabilitySelectors, Exists, j);
    r
  }

  /** `extract_product_info`: each field from the first selector of its own list whose element
      gives a usable value; a name is never empty, and the availability is the text of the
      first availability element there is, even an empty one. */
  function ProductInfo(site: Site, page: Element, url: string): (r: PageProduct)
    ensures r.url == url
    ensures r.name.Some? ==> r.name.value != ""
    ensures r.name.Some? <==> exists j :: FirstUsable(page, NameSelectors, HasText, j)
    ensures forall j :: FirstUsable(page, NameSelectors, HasText, j) ==>
              r.name == Some(SelectOne(page, NameSelectors[j]).value.strippedText)
    ensures r.price.Some? <==> exists j :: FirstUsable(page, PriceSelectors, HasPrice, j)
    ensures r.originalPrice.Some? <==> exists j :: FirstUsable(page, OriginalPriceSelectors, HasPrice, j)
    ensures r.price.None? || Truthy(r.price)
    ensures r.originalPrice.None? || Truthy(r.originalPrice)
    ensures forall j :: FirstUsable(page, PriceSelectors, HasPrice, j) ==>
              r.price == CleanPrice(SelectOne(page, PriceSelectors[j]).value.strippedText)
    ensures forall j :: FirstUsable(page, OriginalPriceSelectors, HasPrice, j) ==>
              r.originalPrice == CleanPrice(SelectOne(page, OriginalPriceSelectors[j]).value.strippedText)
    ensures r.description == PageDescription(page)
    ensures r.imageUrl == PageImage(site, page)
    ensures r.availability.Some? <==>
              exists j :: 0 <= j < |AvailabilitySelectors| && SelectOne(page, AvailabilitySelectors[j]).Some?
    ensures forall j :: FirstUsable(page, AvailabilitySelectors, Exists, j) ==>
              r.availability == Some(SelectOne(page, AvailabilitySelectors[j]).value.strippedText)
  {
    PageProduct(url, PageName(page), FirstPrice(page, PriceSelectors), FirstPrice(page, OriginalPriceSelectors),
                PageDescription(page), PageImage(site, page), PageAvailability(page))
  }

  /** `product['name'] or product['price']`. */
  predicate Kept(p: PageProduct) {
    (p.name.Some? && p.name.value != "") || Truthy(p.price)
  }

  // ---------------------------------------------------------------- a listing page

  const ListingSelectors: seq<string> := [
    ".product-item", ".product-card", ".product", ".item", "[data-product-id]", ".grid-item"]
  const ElementNameSelectors: seq<string> :=
    ["h1", "h2", "h3", "h4", ".title", ".name", ".product-title", ".product-name"]
  const ElementPriceSelectors: seq<string> := [".price", ".cost", ".amount", ".money", "[data-price]"]

  /** The record `extract_product_from_element` fills in; its `original_price` is never set. */
  datatype ListingProduct = ListingProduct(name: Option<string>, price: Option<real>,
                                           url: Option<string>, imageUrl: Option<string>)

  /** The name element: the first, in document order, of the comma-joined name selector, or
      else the first `a[title]`. */
  function NameElement(e: Element): Option<Node> {
    match SelectOneOf(e, ElementNameSelectors)
    case Some(n) => Some(n)
    case None => SelectOne(e, "a[title]")
  }

  /** The resolved value of the first non-empty attribute of `names` on `n`, if any. */
  function Resolved(site: Site, n: Option<Node>, names: seq<string>): (r: Option<string>)
    ensures r.Some? <==> n.Some? && FirstAttr(n.value.attrs, names) != ""
    ensures r.Some? ==> r.value == site.urljoin(site.baseUrl, FirstAttr(n.value.attrs, names))
  {
    match n
    case Some(x) =>
      var v := FirstAttr(x.attrs, names);
      if v != "" then Some(site.urljoin(site.baseUrl, v)) else None
    case None => None
  }

  /** `extract_product_from_element`. */
  function ElementProduct(site: Site, e: Element): (r: ListingProduct)
    ensures NameElement(e).None? <==> r.name.None?
    ensures r.name.Some? ==>
              var n := NameElement(e).value;
              r.name.value == if n.strippedText != "" then n.strippedText
                              else Strip(Attr(n.attrs, "title"))
    ensures SelectOneOf(e, ElementNameSelectors).Some? ==> NameElement(e) == SelectOneOf(e, ElementNameSelectors)
    ensures r.price.None? || Truthy(r.price)
    ensures r.price.Some? <==> && SelectOneOf(e, ElementPriceSelectors).Some?
                               && HasPrice(SelectOneOf(e, ElementPriceSelectors).value)
    ensures r.price.Some? ==> r.price == CleanPrice(SelectOneOf(e, ElementPriceSelectors).value.strippedText)
    ensures r.url == Resolved(site, SelectOne(e, "a"), ["href"])
    ensures r.imageUrl == Resolved(site, SelectOne(e, "img"), SourceAttributes)
  {
    var nameElement := NameElement(e);
    var priceElement := SelectOneOf(e, ElementPriceSelectors);
    ListingProduct(
      match nameElement
      case Some(n) => Some(if n.strippedText != "" then n.strippedText else Strip(Attr(n.attrs, "title")))
      case None => None,
      if priceElement.Some? && HasPrice(priceElement.value) then CleanPrice(priceElement.value.strippedText)
      else None,
      Resolved(site, SelectOne(e, "a"), ["href"]),
      Resolved(site, SelectOne(e, "img"), SourceAttributes))
  }

  predicate ListingKept(p: ListingProduct) {
    (p.name.Some? && p.name.value != "") || Truthy(p.price)
  }

  /** The product of each element of `els`, in order. */
  function ListingExtracted(site: Site, els: seq<Element>): (r: seq<ListingProduct>)
    ensures |r| == |els|
    ensures forall k :: 0 <= k < |r| ==> r[k] == ElementProduct(site, els[k])
  {
    seq(|els|, i requires 0 <= i < |els| => ElementProduct(site, els[i]))
  }

  /** The kept ones of `ps`, in order. */
  function KeepListed(ps: seq<ListingProduct>): (r: seq<ListingProduct>)
    ensures |r| <= |ps|
    ensures forall k :: 0 <= k < |r| ==> ListingKept(r[k]) && r[k] in ps
    ensures forall i :: 0 <= i < |ps| && ListingKept(ps[i]) ==> ps[i] in r
    ensures r == [] <==> forall i :: 0 <= i < |ps| ==> !ListingKept(ps[i])
  {
    FilterMembers(ps, ListingKept);
    var r := Filter(ps, ListingKept);
    assert r != [] ==> ListingKept(r[0]) && r[0] in ps;
    r
  }

  /** Filtering distributes over concatenation, so the kept products keep their relative order. */
  lemma KeepListedConcat(a: seq<ListingProduct>, b: seq<ListingProduct>)
    ensures KeepListed(a + b) == KeepListed(a) + KeepListed(b)
  {
    FilterConcat(a, b, ListingKept);
  }

  /** Keeping the images of `els` under `f`: every kept image is kept, and only images are. */
  lemma KeepListedImages(els: seq<Element>, f: Element -> ListingProduct, ps: seq<ListingProduct>)
    requires |ps| == |els| && forall i :: 0 <= i < |els| ==> ps[i] == f(els[i])
    ensures forall i :: 0 <= i < |els| && ListingKept(f(els[i])) ==> f(els[i]) in KeepListed(ps)
    ensures forall k :: 0 <= k < |KeepListed(ps)| ==>
              exists i :: 0 <= i < |els| && KeepListed(ps)[k] == f(els[i])
    ensures KeepListed(ps) == [] <==> forall i :: 0 <= i < |els| ==> !ListingKept(f(els[i]))
  {
    var r := KeepListed(ps);
    forall i | 0 <= i < |els| && ListingKept(f(els[i]))
      ensures f(els[i]) in r
    {
      assert ps[i] == f(els[i]);
    }
    forall k | 0 <= k < |r|
      ensures exists i :: 0 <= i < |els| && r[k] == f(els[i])
    {
      var i :| 0 <= i < |ps| && ps[i] == r[k];
    }
  }

  /** The kept products of `els`, in order: every element whose product has a name or a price
      contributes it, and every product returned is some element's. */
  function KeptProducts(site: Site, els: seq<Element>): (r: seq<ListingProduct>)
    ensures |r| <= |els|
    ensures forall k :: 0 <= k < |r| ==> ListingKept(r[k])
    ensures forall i :: 0 <= i < |els| && ListingKept(ElementProduct(site, els[i])) ==>
              ElementProduct(site, els[i]) in r
    ensures forall k :: 0 <= k < |r| ==> exists i :: 0 <= i < |els| && r[k] == ElementProduct(site, els[i])
  {
    var ps := ListingExtracted(site, els);
    KeepListedImages(els, e => ElementProduct(site, e), ps);
    KeepListed(ps)
  }

  /** No product is kept exactly when no element gives a product with a name or a price. */
  lemma KeptProductsEmpty(site: Site, els: seq<Element>)
    ensures KeptProducts(site, els) == [] <==> forall i :: 0 <= i < |els| ==> !ListingKept(ElementProduct(site, els[i]))
  {
    var r := KeptProducts(site, els);
    if r != [] {
      var i :| 0 <= i < |els| && r[0] == ElementProduct(site, els[i]);
    }
  }

  /** The products of consecutive element lists are the consecutive products. */
  lemma KeptProductsConcat(site: Site, a: seq<Element>, b: seq<Element>)
    ensures KeptProducts(site, a + b) == KeptProducts(site, a) + KeptProducts(site, b)
  {
    assert ListingExtracted(site, a + b) == ListingExtracted(site, a) + ListingExtracted(site, b);
    KeepListedConcat(ListingExtracted(site, a), ListingExtracted(site, b));
  }

  /** `extract_products_from_listing`: the kept products of the first selector that matches any
      element, even when none of them is kept; nothing when no selector matches. */
  function ListingProducts(site: Site, all: map<string, seq<Element>>): (r: seq<ListingProduct>)
    ensures forall k :: 0 <= k < |r| ==> ListingKept(r[k])
    ensures (forall j :: 0 <= j < |ListingSelectors| ==> SelectAll(all, ListingSelectors[j]) == []) ==> r == []
    ensures forall j :: FirstMatched(all, ListingSelectors, j) ==>
                          r == KeptProducts(site, SelectAll(all, ListingSelectors[j]))
  {
    match FirstMatching(all, ListingSelectors, 0)
    case Some(j) => KeptProducts(site, SelectAll(all, ListingSelectors[j]))
    case None => []
  }

  /** A listing page whose first matching selector yields nothing kept gives no products, whatever
      the later selectors would have given. */
  lemma ListingStopsAtFirstMatch(site: Site, all: map<string, seq<Element>>, j: nat)
    requires j < |ListingSelectors| && SelectAll(all, ListingSelectors[j]) != []
    requires forall i :: 0 <= i < j ==> SelectAll(all, ListingSelectors[i]) == []
    requires forall e :: e in SelectAll(all, ListingSelectors[j]) ==> !ListingKept(ElementProduct(site, e))
    ensures ListingProducts(site, all) == []
  {
    assert FirstMatched(all, ListingSelectors, j);
    KeptProductsEmpty(site, SelectAll(all, ListingSelectors[j]));
  }

  // ---------------------------------------------------------------- the run

  /** `product_urls[:max_products]`, Python slice semantics: a negative bound counts from the
      end. */
  function SliceTo(urls: seq<string>, m: int): (r: seq<string>)
    ensures |r| <= |urls| && r == urls[..|r|]
  {
    if m >= |urls| then urls
    else if m >= 0 then urls[..m]
    else if |urls| + m >= 0 then urls[..|urls| + m]
    else []
  }

  /** `if max_products and len(product_urls) > max_products: product_urls = product_urls[:max_products]`:
      no bound, or a bound of 0, leaves the list as it is. */
  function Limit(urls: seq<string>, maxProducts: Option<int>): (r: seq<string>)
    ensures |r| <= |urls| && r == urls[..|r|]
    ensures maxProducts.None? || maxProducts.value == 0 ==> r == urls
    ensures maxProducts.Some? && maxProducts.value > 0 ==>
              |r| == (if |urls| <= maxProducts.value then |urls| else maxProducts.value)
  {
    if maxProducts.Some? && maxProducts.value != 0 && |urls| > maxProducts.value then
      SliceTo(urls, maxProducts.value)
    else urls
  }

  /** The kept product of one URL, if any: `fetch` stands for the network and the parser. */
  function UrlProduct(site: Site, fetch: string -> Option<Element>, url: string): (r: Option<PageProduct>)
    ensures r.Some? ==> Kept(r.value) && r.value.url == url
    ensures r.Some? <==> fetch(url).Some? && Kept(ProductInfo(site, fetch(url).value, url))
  {
    match fetch(url)
    case Some(page) =>
      var p := ProductInfo(site, page, url);
      if Kept(p) then Some(p) else None
    case None => None
  }

  /** Collecting the outcomes of `urls` under `f`, where every product found is kept and carries
      its URL: every product returned is kept and comes from one of the URLs, and every URL's
      product is returned. */
  lemma CollectedOutcomes(urls: seq<string>, f: string -> Option<PageProduct>, os: seq<Option<PageProduct>>)
    requires |os| == |urls| && forall i :: 0 <= i < |urls| ==> os[i] == f(urls[i])
    requires forall i :: 0 <= i < |urls| && f(urls[i]).Some? ==> Kept(f(urls[i]).value) && f(urls[i]).value.url == urls[i]
    ensures |Somes(os)| <= |urls|
    ensures forall k :: 0 <= k < |Somes(os)| ==> Kept(Somes(os)[k]) && Somes(os)[k].url in urls
    ensures forall i :: 0 <= i < |urls| && f(urls[i]).Some? ==> f(urls[i]).value in Somes(os)
  {
    SomesMembers(os);
    var r := Somes(os);
    forall k | 0 <= k < |r|
      ensures Kept(r[k]) && r[k].url in urls
    {
      var i :| 0 <= i < |os| && os[i] == Some(r[k]);
      assert f(urls[i]) == Some(r[k]);
    }
  }

  /** The kept products of `urls`, in order. */
  function UrlProducts(site: Site, fetch: string -> Option<Element>, urls: seq<string>): (r: seq<PageProduct>)
    ensures |r| <= |urls|
    ensures forall k :: 0 <= k < |r| ==> Kept(r[k]) && r[k].url in urls
    ensures forall i :: 0 <= i < |urls| && UrlProduct(site, fetch, urls[i]).Some? ==>
              UrlProduct(site, fetch, urls[i]).value in r
  {
    var os := Map(urls, u => UrlProduct(site, fetch, u));
    CollectedOutcomes(urls, u => UrlProduct(site, fetch, u), os);
    Somes(os)
  }

  /** The collection distributes over concatenation of the URL lists, so products come out in
      the order of their URLs. */
  lemma UrlProductsConcat(site: Site, fetch: string -> Option<Element>, a: seq<string>, b: seq<string>)
    ensures UrlProducts(site, fetch, a + b) == UrlProducts(site, fetch, a) + UrlProducts(site, fetch, b)
  {
    var f := u => UrlProduct(site, fetch, u);
    MapConcat(a, b, f);
    SomesConcat(Map(a, f), Map(b, f));
  }

  /** One more URL appends its product, if it gives one. */
  lemma UrlProductsSnoc(site: Site, fetch: string -> Option<Element>, urls: seq<string>, u: string)
    ensures UrlProducts(site, fetch, urls + [u]) ==
              UrlProducts(site, fetch, urls) + (match UrlProduct(site, fetch, u) case Some(p) => [p] case None => [])
  {
    var f := u => UrlProduct(site, fetch, u);
    UrlProductsConcat(site, fetch, urls, [u]);
    assert UrlProducts(site, fetch, [u]) == Somes(Map([u], f));
    assert Map([u], f) == [f(u)];
    assert Map([u], f)[..0] == [];
    assert Somes([f(u)]) == (if f(u).Some? then [f(u).value] else []);
  }

  /** What `scrape_products` collects: nothing when the base page cannot be fetched; the listing
      products of the base page when no product URL was discovered; then the kept products of
      the (possibly cut) URL list. */
  datatype Collected = Collected(fromListing: seq<ListingProduct>, fromPages: seq<PageProduct>)

  /** `scrape_products(max_products)`: `base` is the fetched base page, `discovered` the
      discovered product URLs. */
  method ScrapeProducts(site: Site, fetch: string -> Option<Element>, base: Option<Document>,
                        discovered: seq<string>, maxProducts: Option<int>) returns (c: Collected)
    ensures base.None? ==> c == Collected([], [])
    ensures base.Some? && discovered != [] ==> c.fromListing == []
    ensures base.Some? && discovered == [] ==> c.fromListing == ListingProducts(site, base.value.all)
    ensures base.Some? ==> c.fromPages == UrlProducts(site, fetch, Limit(discovered, maxProducts))
    ensures maxProducts.Some? && maxProducts.value > 0 ==> |c.fromPages| <= maxProducts.value
    ensures forall k :: 0 <= k < |c.fromPages| ==> Kept(c.fromPages[k]) && c.fromPages[k].url in discovered
  {
    if base.None? {
      return Collected([], []);
    }
    var fromListing := if discovered == [] then ListingProducts(site, base.value.all) else [];
    var urls := Limit(discovered, maxProducts);
    var fromPages: seq<PageProduct> := [];
    for n := 0 to |urls|
      invariant fromPages == UrlProducts(site, fetch, urls[..n])
    {
      assert urls[..n + 1] == urls[..n] + [urls[n]];
      UrlProductsSnoc(site, fetch, urls[..n], urls[n]);
      var p := UrlProduct(site, fetch, urls[n]);
      if p.Some? {
        fromPages := fromPages + [p.value];
      }
    }
    assert urls[..|urls|] == urls;
    assert forall u :: u in urls ==> u in discovered;
    c := Collected(fromListing, fromPages);
  }
}
