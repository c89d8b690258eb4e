/** `final_shopdydy_scraper.py` (and its byte-identical copy in the package directory): the
    category links of the home page, the products of each category page's `.item` elements,
    completed from the product page when the item gives no name, and the final filter that keeps
    the first product of each (lower-cased, stripped name, price). */
module CategoryScraper {
  import opened Wrappers
  import opened Text
  import opened PriceText
  import opened Dom
  import opened PricePatterns
  import opened Filtering
  import Dedup

  datatype Product = Product(name: string, price: Option<real>, description: string,
                             imageUrl: string, productUrl: string, category: string)

  const UnknownProduct: string := "Unknown Product"

  // ---------------------------------------------------------------- one item

  /** The first link of the item, when it has a non-empty `href`. */
  function Link(e: Element): (r: Option<Node>)
    ensures r.Some? ==> SelectOne(e, "a") == r && Attr(r.value.attrs, "href") != ""
    ensures r.None? <==> SelectOne(e, "a").None? || Attr(SelectOne(e, "a").value.attrs, "href") == ""
  {
    match SelectOne(e, "a")
    case Some(a) => if Attr(a.attrs, "href") != "" then Some(a) else None
    case None => None
  }

  /** The stripped `title` of a link. */
  function LinkTitle(link: Node): string {
    Strip(Attr(link.attrs, "title"))
  }

  /** The stripped text of a link with every `₵N`, `GHS N` and `$N` removed. */
  function LinkText(link: Node): string {
    Strip(RemovePriceMarks(link.strippedText))
  }

  /** The stripped `alt` of the item's first image, or "" when there is no image. */
  function AltText(e: Element): string {
    match SelectOne(e, "img")
    case Some(img) => Strip(Attr(img.attrs, "alt"))
    case None => ""
  }

  /** The name the link gives: its title, or else its cleaned text when longer than 2
      characters; "Unknown Product" when the item has no link with an `href`, or neither gives
      a name. */
  function LinkName(e: Element): (r: string)
    ensures Link(e).Some? && LinkTitle(Link(e).value) != "" ==> r == LinkTitle(Link(e).value)
    ensures r != UnknownProduct ==>
              && Link(e).Some?
              && (|| r == LinkTitle(Link(e).value)
                  || (LinkTitle(Link(e).value) == "" && r == LinkText(Link(e).value) && |r| > 2))
  {
    match Link(e)
    case None => UnknownProduct
    case Some(link) =>
      if LinkTitle(link) != "" then LinkTitle(link)
      else if |LinkText(link)| > 2 then LinkText(link)
      else UnknownProduct
  }

  /** The item's name: the name the link gives, replaced by an image `alt` longer than 2
      characters when it is still "Unknown Product" or shorter than 3 characters. A name
      shorter than 3 characters can only be a short link title on an item without a usable
      `alt`. */
  function ItemName(e: Element): (r: string)
    ensures r != LinkName(e) ==>
              && r == AltText(e) && |r| > 2
              && (LinkName(e) == UnknownProduct || |LinkName(e)| < 3)
    ensures (LinkName(e) == UnknownProduct || |LinkName(e)| < 3) && |AltText(e)| > 2 ==> r == AltText(e)
    ensures |r| < 3 ==> Link(e).Some? && r == LinkTitle(Link(e).value) && |AltText(e)| <= 2
  {
    var n := LinkName(e);
    if (n == UnknownProduct || |n| < 3) && |AltText(e)| > 2 then AltText(e) else n
  }

  const ItemPriceSelectors: seq<string> := [".price", ".cost", ".amount", "[data-price]"]

  /** The item's price: the cleaned text of the first price element in document order, even
      when that reads as no price; only when there is no price element, the first `₵` amount of
      the item's text. */
  function ItemPrice(e: Element): (r: Option<real>)
    ensures SelectOneOf(e, ItemPriceSelectors).Some? ==>
              r == CleanPrice(SelectOneOf(e, ItemPriceSelectors).value.strippedText)
    ensures SelectOneOf(e, ItemPriceSelectors).None? && FirstCediAmount(e.text, 0).Some? ==>
              r == CleanPrice(FirstCediAmount(e.text, 0).value)
    ensures SelectOneOf(e, ItemPriceSelectors).None? && FirstCediAmount(e.text, 0).None? ==> r.None?
  {
    match SelectOneOf(e, ItemPriceSelectors)
    case Some(n) => CleanPrice(n.strippedText)
    case None =>
      match FirstCediAmount(e.text, 0)
      case Some(g) => CleanPrice(g)
      case None => None
  }

  /** A present price element alone decides the price: the item's text is not read. */
  lemma PriceElementDecides(a: Element, b: Element)
    requires SelectOneOf(a, ItemPriceSelectors).Some?
    requires SelectOneOf(a, ItemPriceSelectors) == SelectOneOf(b, ItemPriceSelectors)
    ensures ItemPrice(a) == ItemPrice(b)
  {
  }

  /** An item without a price element and without a `₵` followed by a digit has no price. */
  lemma NoCediNoPrice(e: Element)
    requires SelectOneOf(e, ItemPriceSelectors).None?
    requires forall k :: 0 <= k < |e.text| - 1 ==> !(e.text[k] == '₵' && IsDigit(e.text[k + 1]))
    ensures ItemPrice(e).None?
  {
  }

  const CategoryMarker: string := "/category/"

  /** The category named by a page URL: '' unless the URL contains "/category/"; otherwise the
      text after its last occurrence with '/' read as " > " and '-' as ' ', title-cased. */
  function CategoryOf(pageUrl: string): (r: string)
    ensures !Contains(pageUrl, CategoryMarker) ==> r == ""
  {
    if Contains(pageUrl, CategoryMarker) then
      var tail := LastPiece(pageUrl, CategoryMarker);
      Title(ReplaceChar(ReplaceChar(tail, '/', " > "), '-', " "))
    else ""
  }

  /** A category never contains a '/' or a '-'. */
  lemma CategoryHasNoSlashOrHyphen(pageUrl: string)
    ensures '/' !in CategoryOf(pageUrl) && '-' !in CategoryOf(pageUrl)
  {
    if Contains(pageUrl, CategoryMarker) {
      var tail := LastPiece(pageUrl, CategoryMarker);
      var inner := ReplaceChar(tail, '/', " > ");
      var outer := ReplaceChar(inner, '-', " ");
      ReplaceCharRemoves(tail, '/', " > ");
      ReplaceCharRemoves(inner, '-', " ");
      if '/' in outer {
        ReplaceCharFrom(inner, '-', " ", '/');
      }
      TitleKeepsNonLetters(outer, '/');
      TitleKeepsNonLetters(outer, '-');
    }
  }

  const ImageAttributes: seq<string> := ["src", "data-src", "data-lazy-src"]

  /** `extract_product_from_item`: the product URL is the resolved `href` of the first link when
      that is non-empty, and the page URL otherwise. */
  function ItemProduct(site: Site, e: Element, pageUrl: string): (p: Product)
    ensures Link(e).Some? ==> p.productUrl == site.urljoin(site.baseUrl, Attr(Link(e).value.attrs, "href"))
    ensures Link(e).None? ==> p.productUrl == pageUrl
    ensures p.name == ItemName(e) && p.price == ItemPrice(e) && p.category == CategoryOf(pageUrl)
    ensures p.imageUrl == ImageUrl(site, SelectOne(e, "img"), ImageAttributes)
    ensures p.description == ""
  {
    Product(ItemName(e), ItemPrice(e), "", ImageUrl(site, SelectOne(e, "img"), ImageAttributes),
            match Link(e)
            case Some(link) => site.urljoin(site.baseUrl, Attr(link.attrs, "href"))
            case None => pageUrl,
            CategoryOf(pageUrl))
  }

  // ---------------------------------------------------------------- the product page

  const DetailNameSelectors: seq<string> :=
    ["h1.product-title", "h1", ".product-name", ".product-title", "[data-product-title]"]
  const DetailDescriptionSelectors: seq<string> :=
    [".product-description", ".description", ".product-details", ".product-info p", ".details"]

  /** A name longer than 3 characters. */
  predicate NameLike(n: Node) {
    |n.strippedText| > 3
  }

  /** A description longer than 10 characters. */
  predicate DescriptionLike(n: Node) {
    |n.strippedText| > 10
  }

  /** What `get_product_details` finds; a missing field is left out of the dictionary. */
  datatype Details = Details(name: Option<string>, description: Option<string>)

  /** `get_product_details` on the fetched page, if it could be fetched: the first name longer
      than 3 characters, and the first description longer than 10, cut to 300 characters and
      "..." when longer. */
  function ProductDetails(page: Option<Element>): (d: Details)
    ensures page.None? ==> d == Details(None, None)
    ensures d.name.Some? ==> |d.name.value| > 3
    ensures d.description.Some? ==> |d.description.value| > 10 && |d.description.value| <= 303
    ensures page.Some? ==> forall j :: FirstUsable(page.value, DetailNameSelectors, NameLike, j) ==>
              d.name == Some(SelectOne(page.value, DetailNameSelectors[j]).value.strippedText)
    ensures page.Some? ==> (d.name.Some? <==> exists j :: FirstUsable(page.value, DetailNameSelectors, NameLike, j))
    ensures page.Some? ==>
              (d.description.Some? <==> exists j :: FirstUsable(page.value, DetailDescriptionSelectors, DescriptionLike, j))
    ensures page.Some? ==> forall j :: FirstUsable(page.value, DetailDescriptionSelectors, DescriptionLike, j) ==>
              d.description == Some(Shorten(SelectOne(page.value, DetailDescriptionSelectors[j]).value.strippedText, 300))
  {
    match page
    case None => Details(None, None)
    case Some(p) =>
      Details(
        match FirstNode(p, DetailNameSelectors, NameLike)
        case Some(n) => Some(n.strippedText)
        case None => None,
        match FirstNode(p, DetailDescriptionSelectors, DescriptionLike)
        case Some(n) => Some(Shorten(n.strippedText, 300))
        case None => None)
  }

  /** `product.update(details)`. */
  function Update(p: Product, d: Details): (r: Product)
    ensures r.price == p.price && r.productUrl == p.productUrl && r.category == p.category
    ensures r.imageUrl == p.imageUrl
    ensures r.name == (if d.name.Some? then d.name.value else p.name)
    ensures r.description == (if d.description.Some? then d.description.value else p.description)
  {
    p.(name := if d.name.Some? then d.name.value else p.name,
       description := if d.description.Some? then d.description.value else p.description)
  }

  /** The root element of a fetched page, if it could be fetched. */
  function PageRoot(doc: Option<Document>): Option<Element> {
    if doc.Some? then Some(doc.value.root) else None
  }

  /** An item's product, completed from its product page when the item gave no name and links
      elsewhere; `fetch` stands for the network and the parser. */
  function Completed(site: Site, fetch: string -> Option<Document>, e: Element, pageUrl: string): (p: Product)
    ensures p.price == ItemPrice(e)
    ensures p.productUrl == ItemProduct(site, e, pageUrl).productUrl
    ensures p.category == CategoryOf(pageUrl)
    ensures ItemName(e) != UnknownProduct || ItemProduct(site, e, pageUrl).productUrl == pageUrl ==>
              p == ItemProduct(site, e, pageUrl)
    ensures ItemName(e) == UnknownProduct && ItemProduct(site, e, pageUrl).productUrl != pageUrl ==>
              var d := ProductDetails(PageRoot(fetch(ItemProduct(site, e, pageUrl).productUrl)));
              && p.name == (if d.name.Some? then d.name.value else UnknownProduct)
              && p.description == (if d.description.Some? then d.description.value else "")
  {
    var p := ItemProduct(site, e, pageUrl);
    if p.productUrl != pageUrl && p.name == UnknownProduct then
      Update(p, ProductDetails(PageRoot(fetch(p.productUrl))))
    else p
  }

  /** `p['price']` is set. */
  predicate Priced(p: Product) {
    p.price.Some?
  }

  /** The products of `ps` that have a price, in order. */
  function KeepPriced(ps: seq<Product>): (r: seq<Product>)
    ensures |r| <= |ps|
    ensures forall k :: 0 <= k < |r| ==> r[k].price.Some? && r[k] in ps
    ensures forall k :: 0 <= k < |ps| && ps[k].price.Some? ==> ps[k] in r
  {
    FilterMembers(ps, Priced);
    Filter(ps, Priced)
  }

  /** Filtering distributes over concatenation, so the kept products keep their relative order. */
  lemma KeepPricedConcat(a: seq<Product>, b: seq<Product>)
    ensures KeepPriced(a + b) == KeepPriced(a) + KeepPriced(b)
  {
    FilterConcat(a, b, Priced);
  }

  /** The completed products of `items`, in order. */
  function Completions(site: Site, fetch: string -> Option<Document>, items: seq<Element>, pageUrl: string)
    : (r: seq<Product>)
    ensures |r| == |items|
    ensures forall i :: 0 <= i < |items| ==> r[i] == Completed(site, fetch, items[i], pageUrl)
  {
    seq(|items|, i requires 0 <= i < |items| => Completed(site, fetch, items[i], pageUrl))
  }

  /** `scrape_category`: the completed products of the page's `.item` elements that have a
      price; nothing when the page cannot be fetched. */
  function ScrapeCategory(site: Site, fetch: string -> Option<Document>, categoryUrl: string): (r: seq<Product>)
    ensures forall k :: 0 <= k < |r| ==> r[k].price.Some?
    ensures fetch(categoryUrl).None? ==> r == []
    ensures fetch(categoryUrl).Some? ==>
              r == KeepPriced(Completions(site, fetch, SelectAll(fetch(categoryUrl).value.all, ".item"), categoryUrl))
  {
    match fetch(categoryUrl)
    case None => []
    case Some(doc) => KeepPriced(Completions(site, fetch, SelectAll(doc.all, ".item"), categoryUrl))
  }

  /** Filtering the images of `items` under `f`: every priced image is kept, and everything
      kept is an image. */
  lemma KeepPricedImages(items: seq<Element>, f: Element -> Product, ps: seq<Product>)
    requires |ps| == |items| && forall i :: 0 <= i < |items| ==> ps[i] == f(items[i])
    ensures forall i :: 0 <= i < |items| && f(items[i]).price.Some? ==> f(items[i]) in KeepPriced(ps)
    ensures forall k :: 0 <= k < |KeepPriced(ps)| ==>
              exists i :: 0 <= i < |items| && KeepPriced(ps)[k] == f(items[i])
  {
    var r := KeepPriced(ps);
    forall i | 0 <= i < |items| && f(items[i]).price.Some?
      ensures f(items[i]) in r
    {
      assert ps[i] == f(items[i]);
    }
    forall k | 0 <= k < |r|
      ensures exists i :: 0 <= i < |items| && r[k] == f(items[i])
    {
      var i :| 0 <= i < |ps| && ps[i] == r[k];
    }
  }

  /** Every item with a price is returned, completed, and everything returned is a completed
      item of the page. */
  lemma ScrapeCategoryItems(site: Site, fetch: string -> Option<Document>, categoryUrl: string, doc: Document)
    requires fetch(categoryUrl) == Some(doc)
    ensures var items := SelectAll(doc.all, ".item");
            var r := ScrapeCategory(site, fetch, categoryUrl);
            && (forall i :: 0 <= i < |items| && ItemPrice(items[i]).Some? ==>
                  Completed(site, fetch, items[i], categoryUrl) in r)
            && (forall k :: 0 <= k < |r| ==>
                  exists i :: 0 <= i < |items| && r[k] == Completed(site, fetch, items[i], categoryUrl))
  {
    var items := SelectAll(doc.all, ".item");
    var f := (e: Element) => Completed(site, fetch, e, categoryUrl);
    var ps := Completions(site, fetch, items, categoryUrl);
    assert ScrapeCategory(site, fetch, categoryUrl) == KeepPriced(ps);
    KeepPricedImages(items, f, ps);
  }

  /** A priced item whose name the item itself gives is kept as read from the item. */
  lemma NamedPricedItemKept(site: Site, fetch: string -> Option<Document>, categoryUrl: string, i: nat)
    requires fetch(categoryUrl).Some?
    requires i < |SelectAll(fetch(categoryUrl).value.all, ".item")|
    requires var e := SelectAll(fetch(categoryUrl).value.all, ".item")[i];
             ItemName(e) != UnknownProduct && ItemPrice(e).Some?
    ensures ItemProduct(site, SelectAll(fetch(categoryUrl).value.all, ".item")[i], categoryUrl)
              in ScrapeCategory(site, fetch, categoryUrl)
  {
    ScrapeCategoryItems(site, fetch, categoryUrl, fetch(categoryUrl).value);
  }

  // ---------------------------------------------------------------- categories and the run

  /** The resolved URLs of the `href`s that contain "/category/", in document order. */
  function CategoryLinks(site: Site, hrefs: seq<string>): (r: seq<string>)
    ensures forall u :: u in r <==>
              exists i :: 0 <= i < |hrefs| && Contains(hrefs[i], CategoryMarker) &&
                          u == site.urljoin(site.baseUrl, hrefs[i])
  {
    if |hrefs| == 0 then []
    else
      var h := hrefs[|hrefs| - 1];
      var pre := CategoryLinks(site, hrefs[..|hrefs| - 1]);
      assert forall i :: 0 <= i < |hrefs| - 1 ==> hrefs[..|hrefs| - 1][i] == hrefs[i];
      pre + (if Contains(h, CategoryMarker) then [site.urljoin(site.baseUrl, h)] else [])
  }

  /** The `href` of each link that has one, in document order. */
  function Hrefs(links: seq<Element>): seq<string> {
    seq(|links|, i requires 0 <= i < |links| => Attr(links[i].attrs, "href"))
  }

  /** `get_product_categories`: each category link once, in the order first seen; nothing when
      the home page cannot be fetched. */
  function ProductCategories(site: Site, base: Option<Document>): seq<string> {
    match base
    case Some(doc) => Dedup.KeepFirst(CategoryLinks(site, Hrefs(SelectAll(doc.all, "a[href]"))), u => u)
    case None => []
  }

  /** The category URLs are distinct, and a URL is among them exactly when it resolves an
      `href` of the home page that contains "/category/". */
  lemma CategoriesFound(site: Site, doc: Document, u: string)
    ensures var r := ProductCategories(site, Some(doc));
            forall i, j :: 0 <= i < j < |r| ==> r[i] != r[j]
    ensures var hrefs := Hrefs(SelectAll(doc.all, "a[href]"));
            u in ProductCategories(site, Some(doc)) <==>
              exists i :: 0 <= i < |hrefs| && Contains(hrefs[i], CategoryMarker) &&
                          u == site.urljoin(site.baseUrl, hrefs[i])
  {
    var links := CategoryLinks(site, Hrefs(SelectAll(doc.all, "a[href]")));
    var id := (x: string) => x;
    Dedup.KeepFirstKeys(links, id);
    var r := Dedup.KeepFirst(links, id);
    assert u in r <==> id(u) in Dedup.Keys(r, id);
    assert u in links <==> id(u) in Dedup.Keys(links, id);
  }

  /** The products of the categories, in category order. */
  function AllProducts(site: Site, fetch: string -> Option<Document>, categories: seq<string>): seq<Product> {
    if |categories| == 0 then []
    else AllProducts(site, fetch, categories[..|categories| - 1]) +
         ScrapeCategory(site, fetch, categories[|categories| - 1])
  }

  lemma AllProductsStep(site: Site, fetch: string -> Option<Document>, categories: seq<string>, n: nat)
    requires n < |categories|
    ensures AllProducts(site, fetch, categories[..n + 1]) ==
              AllProducts(site, fetch, categories[..n]) + ScrapeCategory(site, fetch, categories[n])
  {
    assert categories[..n + 1][..n] == categories[..n];
  }

  /** The duplicate key: the lower-cased, stripped name and the price. */
  function Key(p: Product): (string, Option<real>) {
    (Strip(Lower(p.name)), p.price)
  }

  /** `scrape_all_products`: every category's products in turn, then the first product of each
      key. */
  method ScrapeAllProducts(site: Site, fetch: string -> Option<Document>, base: Option<Document>)
    returns (products: seq<Product>)
    ensures products == Dedup.KeepFirst(AllProducts(site, fetch, ProductCategories(site, base)), Key)
    ensures forall i, j :: 0 <= i < j < |products| ==> Key(products[i]) != Key(products[j])
    ensures forall k :: 0 <= k < |products| ==> products[k].price.Some?
  {
    var categories := ProductCategories(site, base);
    var all: seq<Product> := [];
    for n := 0 to |categories|
      invariant all == AllProducts(site, fetch, categories[..n])
      invariant forall k :: 0 <= k < |all| ==> all[k].price.Some?
    {
      AllProductsStep(site, fetch, categories, n);
      var more := ScrapeCategory(site, fetch, categories[n]);
      all := all + more;
    }
    assert categories[..|categories|] == categories;
    products := Dedup.Deduplicate(all, Key);
    KeptPriced(all);
  }

  /** The kept products are products of the list, so they have prices when all do. */
  lemma {:induction false} KeptPriced(all: seq<Product>)
    requires forall k :: 0 <= k < |all| ==> all[k].price.Some?
    ensures forall k :: 0 <= k < |Dedup.KeepFirst(all, Key)| ==> Dedup.KeepFirst(all, Key)[k].price.Some?
    decreases |all|
  {
    if |all| > 0 {
      KeptPriced(all[..|all| - 1]);
    }
  }
}
