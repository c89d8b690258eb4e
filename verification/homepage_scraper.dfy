/** `simple_shopdydy_scraper.py`: the home page's products from the first container selector
    that matches; when none matches, the parents of the first ten price-like texts; and when
    there are none of those either, one placeholder record. */
module HomepageScraper {
  import opened Wrappers
  import opened Text
  import opened PriceText
  import opened Dom
  import opened Filtering

  datatype Product = Product(name: string, price: Option<real>, originalPrice: Option<real>,
                             description: string, imageUrl: string, productUrl: string)

  /** `product['name'] or product['price']`. */
  predicate Kept(p: Product) {
    p.name != "" || Truthy(p.price)
  }

  const NameSelectors: seq<string> := ["h1", "h2", "h3", ".title", ".name", ".product-title", ".product-name"]
  const PriceSelectors: seq<string> := [".price", ".cost", ".amount", ".money", "[data-price]"]
  const OriginalPriceSelectors: seq<string> := [".original-price", ".regular-price", ".was-price", ".old-price"]
  const DescriptionSelectors: seq<string> := [".description", ".product-description", ".summary"]
  const ImageAttributes: seq<string> := ["src", "data-src"]

  /** The description: the stripped text of the first description element in document order,
      kept only when longer than 10 characters, and cut to 200 characters and "..." when longer
      than that. */
  function Description(e: Element): (r: string)
    ensures |r| <= 203
    ensures r != "" <==> && SelectOneOf(e, DescriptionSelectors).Some?
                         && |SelectOneOf(e, DescriptionSelectors).value.strippedText| > 10
    ensures r != "" ==>
              var d := SelectOneOf(e, DescriptionSelectors).value.strippedText;
              && (|d| <= 200 ==> r == d)
              && (|d| > 200 ==> |r| == 203 && r[..200] == d[..200] && r[200..] == "...")
  {
    match SelectOneOf(e, DescriptionSelectors)
    case Some(n) => if |n.strippedText| > 10 then Shorten(n.strippedText, 200) else ""
    case None => ""
  }

  /** `extract_product_data`: the name from the first name selector with text, the price and
      the original price each from the first selector of its own list that reads as a non-zero
      price (a cleaned 0 counts as not found), and the resolved image and link, or "". */
  function ExtractProduct(site: Site, e: Element): (p: Product)
    ensures p.name != "" <==> exists j :: FirstUsable(e, NameSelectors, HasText, j)
    ensures forall j :: FirstUsable(e, NameSelectors, HasText, j) ==>
              p.name == SelectOne(e, NameSelectors[j]).value.strippedText
    ensures p.price.None? || Truthy(p.price)
    ensures p.originalPrice.None? || Truthy(p.originalPrice)
    ensures p.price.Some? <==> exists j :: FirstUsable(e, PriceSelectors, HasPrice, j)
    ensures p.originalPrice.Some? <==> exists j :: FirstUsable(e, OriginalPriceSelectors, HasPrice, j)
    ensures forall j :: FirstUsable(e, PriceSelectors, HasPrice, j) ==>
              p.price == CleanPrice(SelectOne(e, PriceSelectors[j]).value.strippedText)
    ensures forall j :: FirstUsable(e, OriginalPriceSelectors, HasPrice, j) ==>
              p.originalPrice == CleanPrice(SelectOne(e, OriginalPriceSelectors[j]).value.strippedText)
    ensures p.description == Description(e)
    ensures p.imageUrl == ImageUrl(site, SelectOne(e, "img"), ImageAttributes)
    ensures SelectOne(e, "a").Some? && Attr(SelectOne(e, "a").value.attrs, "href") != "" ==>
              p.productUrl == site.urljoin(site.baseUrl, Attr(SelectOne(e, "a").value.attrs, "href"))
    ensures SelectOne(e, "a").None? || Attr(SelectOne(e, "a").value.attrs, "href") == "" ==>
              p.productUrl == ""
  {
    var link := SelectOne(e, "a");
    var href := if link.Some? then Attr(link.value.attrs, "href") else "";
    Product(FirstText(e, NameSelectors, HasText).GetOr(""),
            FirstPrice(e, PriceSelectors),
            FirstPrice(e, OriginalPriceSelectors),
            Description(e),
            ImageUrl(site, SelectOne(e, "img"), ImageAttributes),
            if href != "" then site.urljoin(site.baseUrl, href) else "")
  }

  /** No record of `ps` has a price of 0. */
  predicate NoZeroPrice(ps: seq<Product>) {
    forall i :: 0 <= i < |ps| ==> ps[i].price != Some(0.0)
  }

  /** The products of `els`, in order; a cleaned price of 0 counts as not found, so none of them
      has a price of 0. */
  function Extracted(site: Site, els: seq<Element>): (r: seq<Product>)
    ensures |r| == |els|
    ensures forall k :: 0 <= k < |r| ==> r[k] == ExtractProduct(site, els[k])
    ensures NoZeroPrice(r)
  {
    seq(|els|, i requires 0 <= i < |els| => ExtractProduct(site, els[i]))
  }

  /** The kept ones of `ps`, in order. */
  function Keep(ps: seq<Product>): (r: seq<Product>)
    ensures |r| <= |ps|
    ensures forall k :: 0 <= k < |r| ==> Kept(r[k]) && r[k] in ps
    ensures forall i :: 0 <= i < |ps| && Kept(ps[i]) ==> ps[i] in r
    ensures r == [] <==> forall i :: 0 <= i < |ps| ==> !Kept(ps[i])
    ensures NoZeroPrice(ps) ==> NoZeroPrice(r)
  {
    FilterMembers(ps, Kept);
    var r := Filter(ps, Kept);
    assert r != [] ==> Kept(r[0]) && r[0] in ps;
    r
  }

  /** Filtering distributes over concatenation, so the kept products keep their relative order. */
  lemma KeepConcat(a: seq<Product>, b: seq<Product>)
    ensures Keep(a + b) == Keep(a) + Keep(b)
  {
    FilterConcat(a, b, Kept);
  }

  /** Keeping the images of `els` under `f`: every kept image is kept, and only images are. */
  lemma KeepImages(els: seq<Element>, f: Element -> Product, ps: seq<Product>)
    requires |ps| == |els| && forall i :: 0 <= i < |els| ==> ps[i] == f(els[i])
    ensures forall i :: 0 <= i < |els| && Kept(f(els[i])) ==> f(els[i]) in Keep(ps)
    ensures forall k :: 0 <= k < |Keep(ps)| ==> exists i :: 0 <= i < |els| && Keep(ps)[k] == f(els[i])
  {
    var r := Keep(ps);
    forall i | 0 <= i < |els| && Kept(f(els[i]))
      ensures f(els[i]) in r
    {
      assert ps[i] == f(els[i]);
    }
    forall k | 0 <= k < |r|
      ensures exists i :: 0 <= i < |els| && r[k] == f(els[i])
    {
      var i :| 0 <= i < |ps| && ps[i] == r[k];
    }
  }

  /** The kept products of `els`, in order: every element whose product has a name or a price
      contributes it, and every product returned is some element's. None has a price of 0. */
  function KeptProducts(site: Site, els: seq<Element>): (r: seq<Product>)
    ensures |r| <= |els|
    ensures forall k :: 0 <= k < |r| ==> Kept(r[k])
    ensures NoZeroPrice(r)
    ensures forall i :: 0 <= i < |els| && Kept(ExtractProduct(site, els[i])) ==> ExtractProduct(site, els[i]) in r
    ensures forall k :: 0 <= k < |r| ==> exists i :: 0 <= i < |els| && r[k] == ExtractProduct(site, els[i])
  {
    var ps := Extracted(site, els);
    KeepImages(els, e => ExtractProduct(site, e), ps);
    Keep(ps)
  }

  /** The products of consecutive element lists are the consecutive products. */
  lemma KeptProductsConcat(site: Site, a: seq<Element>, b: seq<Element>)
    ensures KeptProducts(site, a + b) == KeptProducts(site, a) + KeptProducts(site, b)
  {
    assert Extracted(site, a + b) == Extracted(site, a) + Extracted(site, b);
    KeepConcat(Extracted(site, a), Extracted(site, b));
  }

  const ContainerSelectors: seq<string> := [
    ".product", ".product-item", ".product-card", ".item", "[data-product]", ".grid-item",
    ".product-grid .product", ".products .product"]

  /** The record added when the page shows neither a product container nor a price-like text. */
  function Placeholder(site: Site): Product {
    Product("Sample Product (Website structure not recognized)", Some(0.0), None,
            "Unable to automatically detect products. Manual inspection needed.", "", site.baseUrl)
  }

  /** The home page as parsed: the document, and the parent of each text matching
      `[\$£€]\d+|USD|EUR|GBP|\d+\.\d{2}`, in document order. */
  datatype HomePage = HomePage(doc: Document, priceTextParents: seq<Element>)

  /** `try_alternative_extraction`: the kept products of the parents of the first ten
      price-like texts, or the placeholder alone when there is no such text. */
  function Alternative(site: Site, parents: seq<Element>): (r: seq<Product>)
    ensures parents == [] ==> r == [Placeholder(site)]
    ensures parents != [] ==> |r| <= 10 && forall k :: 0 <= k < |r| ==> Kept(r[k])
    ensures parents != [] ==> forall i :: 0 <= i < |parents| && i < 10 && Kept(ExtractProduct(site, parents[i])) ==>
                                ExtractProduct(site, parents[i]) in r
    ensures parents != [] ==> forall k :: 0 <= k < |r| ==>
                                exists i :: 0 <= i < |parents| && i < 10 && r[k] == ExtractProduct(site, parents[i])
  {
    if parents == [] then [Placeholder(site)]
    else
      var first := if |parents| <= 10 then parents else parents[..10];
      assert forall i :: 0 <= i < |first| ==> i < 10 && first[i] == parents[i];
      KeptProducts(site, first)
  }

  /** `scrape_homepage`: nothing when the page cannot be fetched; the kept products of the first
      container selector that matches any element, even when none of them is kept; and only
      when no selector matches, the alternative extraction. */
  function ScrapeHomepage(site: Site, page: Option<HomePage>): (r: seq<Product>)
    ensures page.None? ==> r == []
    ensures page.Some? ==> forall j :: FirstMatched(page.value.doc.all, ContainerSelectors, j) ==>
                             r == KeptProducts(site, SelectAll(page.value.doc.all, ContainerSelectors[j]))
    ensures page.Some? && (forall j :: 0 <= j < |ContainerSelectors| ==>
                             SelectAll(page.value.doc.all, ContainerSelectors[j]) == []) ==>
              r == Alternative(site, page.value.priceTextParents)
  {
    match page
    case None => []
    case Some(p) =>
      match FirstMatching(p.doc.all, ContainerSelectors, 0)
      case Some(j) => KeptProducts(site, SelectAll(p.doc.all, ContainerSelectors[j]))
      case None => Alternative(site, p.priceTextParents)
  }

  /** A list without a price of 0 does not hold the placeholder. */
  lemma NoPlaceholder(site: Site, ps: seq<Product>)
    requires NoZeroPrice(ps)
    ensures Placeholder(site) !in ps
  {
  }

  /** The placeholder is added exactly when the page was fetched, no container selector matches
      and no text looks like a price; then it is the only record. */
  lemma PlaceholderOnlyAsLastResort(site: Site, page: HomePage)
    ensures var r := ScrapeHomepage(site, Some(page));
            && (Placeholder(site) in r <==>
                  FirstMatching(page.doc.all, ContainerSelectors, 0).None? && page.priceTextParents == [])
            && (Placeholder(site) in r ==> r == [Placeholder(site)])
  {
    var ps := page.priceTextParents;
    var r := ScrapeHomepage(site, Some(page));
    match FirstMatching(page.doc.all, ContainerSelectors, 0)
    case Some(j) =>
      var found := KeptProducts(site, SelectAll(page.doc.all, ContainerSelectors[j]));
      assert r == found;
      NoPlaceholder(site, found);
    case None =>
      if ps != [] {
        var found := KeptProducts(site, if |ps| <= 10 then ps else ps[..10]);
        assert r == found;
        NoPlaceholder(site, found);
      } else {
        assert r == [Placeholder(site)];
      }
  }
}
