/** `comprehensive_shopdydy_scraper.py`: on each page, four strategies tried in turn (product
    containers, JSON-LD structured data, containers found above price texts, parents of images
    near a price), products read from an element by selector cascades, and a final filter that
    keeps the first product of each (lower-cased name, price). */
module ComprehensiveScraper {
  import opened Wrappers
  import opened Text
  import opened PriceText
  import opened OrderedTable
  import opened Dom
  import opened PricePatterns
  import opened JsonValue
  import opened Filtering
  import Dedup

  /** A product record. `url` is the product link (`product_url`); an item read from structured
      data stores the page URL there. */
  datatype Product = Product(name: string, price: Option<real>, originalPrice: Option<real>,
                             description: string, imageUrl: string, url: string, brand: string,
                             sku: string, availability: string)

  /** `product.get('name') or product.get('price')`. */
  predicate Useful(p: Product) {
    p.name != "" || Truthy(p.price)
  }

  // ---------------------------------------------------------------- one element

  const NameSelectors: seq<string> :=
    ["h1", "h2", "h3", "h4", ".title", ".name", ".product-title", ".product-name", "[data-title]"]
  const PriceSelectors: seq<string> := [".price", ".cost", ".amount", ".money", "[data-price]"]
  const DescriptionSelectors: seq<string> :=
    [".description", ".product-description", ".summary", ".details"]
  const ImageAttributes: seq<string> := ["src", "data-src", "data-lazy-src"]

  /** The name: the stripped text of the first name selector, in list order, whose element has
      any; when none has, the first image's `alt`, or else its `title`. */
  function ElementName(e: Element): (r: string)
    ensures forall j :: FirstUsable(e, NameSelectors, HasText, j) ==>
              r == SelectOne(e, NameSelectors[j]).value.strippedText && r != ""
    ensures (forall j :: 0 <= j < |NameSelectors| ==> !Usable(e, NameSelectors[j], HasText)) ==>
              r == match SelectOne(e, "img")
                   case Some(img) => FirstAttr(img.attrs, ["alt", "title"])
                   case None => ""
  {
    match FirstSelected(e, NameSelectors, HasText, 0)
    case Some(j) => SelectOne(e, NameSelectors[j]).value.strippedText
    case None =>
      match SelectOne(e, "img")
      case Some(img) => FirstAttr(img.attrs, ["alt", "title"])
      case None => ""
  }

  /** The loop `for match in matches: price = clean_price(...); if price: break`: the first of
      `gs` that reads as a non-zero price. */
  function FirstTruthy(gs: seq<string>): (r: Option<real>)
    ensures r.Some? ==> Truthy(r)
    ensures r.Some? ==> exists k :: && 0 <= k < |gs| && CleanPrice(gs[k]) == r
                                    && forall j :: 0 <= j < k ==> !Truthy(CleanPrice(gs[j]))
    ensures r.None? <==> forall k :: 0 <= k < |gs| ==> !Truthy(CleanPrice(gs[k]))
  {
    if |gs| == 0 then None
    else if Truthy(CleanPrice(gs[0])) then CleanPrice(gs[0])
    else
      var r := FirstTruthy(gs[1..]);
      TruthyPastHead(gs, CleanPrice, r);
      r
  }

  /** When the head does not read as a non-zero price, the first amount of the tail that does
      is the first of the whole list. */
  lemma TruthyPastHead(gs: seq<string>, read: string -> Option<real>, r: Option<real>)
    requires |gs| > 0 && !Truthy(read(gs[0]))
    requires r.Some? ==> Truthy(r)
    requires r.Some? ==> exists k :: && 0 <= k < |gs[1..]| && read(gs[1..][k]) == r
                                     && forall j :: 0 <= j < k ==> !Truthy(read(gs[1..][j]))
    requires r.None? <==> forall k :: 0 <= k < |gs[1..]| ==> !Truthy(read(gs[1..][k]))
    ensures r.Some? ==> exists k :: && 0 <= k < |gs| && read(gs[k]) == r
                                    && forall j :: 0 <= j < k ==> !Truthy(read(gs[j]))
    ensures r.None? <==> forall k :: 0 <= k < |gs| ==> !Truthy(read(gs[k]))
  {
    assert forall k :: 1 <= k < |gs| ==> gs[1..][k - 1] == gs[k];
    if r.Some? {
      var k :| && 0 <= k < |gs[1..]| && read(gs[1..][k]) == r
               && forall j :: 0 <= j < k ==> !Truthy(read(gs[1..][j]));
      assert read(gs[k + 1]) == r;
    }
  }

  /** The price: the first `$N` / `N USD` amount of the element's text that reads as a non-zero
      price; only when there is none, the first price selector whose element reads as one. */
  function ElementPrice(e: Element): (r: Option<real>)
    ensures r.None? || Truthy(r)
    ensures FirstTruthy(Amounts(e.text, 0)).Some? ==> r == FirstTruthy(Amounts(e.text, 0))
    ensures FirstTruthy(Amounts(e.text, 0)).None? ==>
              (r.Some? <==> exists j :: 0 <= j < |PriceSelectors| && Usable(e, PriceSelectors[j], HasPrice))
    ensures FirstTruthy(Amounts(e.text, 0)).None? ==>
              forall j :: FirstUsable(e, PriceSelectors, HasPrice, j) ==>
                r == CleanPrice(SelectOne(e, PriceSelectors[j]).value.strippedText)
  {
    var fromText := FirstTruthy(Amounts(e.text, 0));
    if fromText.Some? then fromText else FirstPrice(e, PriceSelectors)
  }

  /** The description: the stripped text of the first description element in document order,
      kept only when longer than 20 characters, and cut to 300 characters and "..." when longer
      than that. */
  function ElementDescription(e: Element): (r: string)
    ensures |r| <= 303
    ensures r != "" <==> && SelectOneOf(e, DescriptionSelectors).Some?
                         && |SelectOneOf(e, DescriptionSelectors).value.strippedText| > 20
    ensures r != "" ==>
              var d := SelectOneOf(e, DescriptionSelectors).value.strippedText;
              && (|d| <= 300 ==> r == d)
              && (|d| > 300 ==> |r| == 303 && r[..300] == d[..300] && r[300..] == "...")
  {
    match SelectOneOf(e, DescriptionSelectors)
    case Some(n) => if |n.strippedText| > 20 then Shorten(n.strippedText, 300) else ""
    case None => ""
  }

  /** `extract_product_from_element`: the record with name, price, description, image and link
      read from the element. The link is the `href` of the element's first anchor, resolved
      against the base URL, when that `href` is non-empty; with no anchor, or an empty `href` on
      the first one, it is the page URL. The other fields stay empty. */
  function ExtractProduct(site: Site, e: Element, pageUrl: string): (p: Product)
    ensures p.originalPrice.None? && p.brand == "" && p.sku == "" && p.availability == ""
    ensures p.name == ElementName(e) && p.price == ElementPrice(e) && p.description == ElementDescription(e)
    ensures p.imageUrl == ImageUrl(site, SelectOne(e, "img"), ImageAttributes)
    ensures SelectOne(e, "a").None? ==> p.url == pageUrl
    ensures SelectOne(e, "a").Some? ==>
              var href := Attr(SelectOne(e, "a").value.attrs, "href");
              p.url == if href != "" then site.urljoin(site.baseUrl, href) else pageUrl
  {
    var link := SelectOne(e, "a");
    var href := if link.Some? then Attr(link.value.attrs, "href") else "";
    Product(ElementName(e), ElementPrice(e), None, ElementDescription(e),
            ImageUrl(site, SelectOne(e, "img"), ImageAttributes),
            if href != "" then site.urljoin(site.baseUrl, href) else pageUrl, "", "", "")
  }

  // ---------------------------------------------------------------- container test

  const ProductKeywords: seq<string> := ["product", "item", "goods", "merchandise", "catalog"]

  /** `looks_like_product_container`: a product keyword in the lower-cased joined class names,
      or a price mark in the lower-cased text when that text is 11 to 499 characters long. */
  predicate LooksLikeProductContainer(e: Element) {
    var text := Lower(e.text);
    || AnyIn(ProductKeywords, Lower(Join(e.classes, " ")))
    || (HasPriceMark(text, "usd") && 10 < |text| < 500)
  }

  /** One class whose lower-cased name holds a product keyword makes a container, whatever the
      text. */
  lemma ClassKeywordMakesContainer(e: Element, k: nat, w: nat)
    requires k < |e.classes| && w < |ProductKeywords|
    requires Contains(Lower(e.classes[k]), ProductKeywords[w])
    ensures LooksLikeProductContainer(e)
  {
    var joined := Join(e.classes, " ");
    JoinContains(e.classes, " ", k);
    LowerContains(joined, e.classes[k]);
    ContainsTrans(Lower(joined), Lower(e.classes[k]), ProductKeywords[w]);
  }

  /** A text of at most 10 or at least 500 characters never makes a container: only the class
      names decide. */
  lemma TextLengthOutsideRange(e: Element)
    requires |e.text| <= 10 || |e.text| >= 500
    ensures LooksLikeProductContainer(e) <==> AnyIn(ProductKeywords, Lower(Join(e.classes, " ")))
  {
  }

  // ---------------------------------------------------------------- strategy 1: containers

  const ContainerSelectors: seq<string> := [
    ".product", ".product-item", ".product-card", ".item", ".product-container", "[data-product]",
    "[data-product-id]", ".grid-item", ".shop-item", ".catalog-item", ".listing-item",
    ".merchandise", ".goods"]

  /** What the parser gives for one page: `soup.select` of each container selector; each JSON-LD
      script, decoded, or `None` when `json.loads` rejects it; for each text a price pattern
      finds (pattern by pattern, in document order), its parent and that parent's ancestors
      upwards; and the parent of each image. */
  datatype Page = Page(select: map<string, seq<Element>>, jsonScripts: seq<Option<Json>>,
                       priceHits: seq<seq<Element>>, imageParents: seq<Element>)

  /** The products of `els`, in order. */
  function Extracted(site: Site, els: seq<Element>, pageUrl: string): (r: seq<Product>)
    ensures |r| == |els|
  {
    seq(|els|, i requires 0 <= i < |els| => ExtractProduct(site, els[i], pageUrl))
  }

  /** The useful ones of `ps`, in order. */
  function KeepUseful(ps: seq<Product>): (r: seq<Product>)
    ensures |r| <= |ps|
    ensures forall k :: 0 <= k < |r| ==> Useful(r[k]) && r[k] in ps
    ensures forall k :: 0 <= k < |ps| && Useful(ps[k]) ==> ps[k] in r
  {
    FilterMembers(ps, Useful);
    Filter(ps, Useful)
  }

  /** The products one container selector yields. */
  function SelectorProducts(site: Site, page: Page, pageUrl: string, sel: string): seq<Product> {
    KeepUseful(Extracted(site, SelectAll(page.select, sel), pageUrl))
  }

  /** The products of each container selector, in list order. */
  function SelectorLists(site: Site, page: Page, pageUrl: string): (r: seq<seq<Product>>)
    ensures |r| == |ContainerSelectors|
    ensures forall j :: 0 <= j < |r| ==> r[j] == SelectorProducts(site, page, pageUrl, ContainerSelectors[j])
  {
    seq(|ContainerSelectors|, j requires 0 <= j < |ContainerSelectors| =>
          SelectorProducts(site, page, pageUrl, ContainerSelectors[j]))
  }

  /** `extract_from_container_elements`: the useful products of the first selector that yields
      any, or nothing. */
  function ContainerProducts(site: Site, page: Page, pageUrl: string): (r: seq<Product>)
    ensures forall i :: 0 <= i < |r| ==> Useful(r[i])
    ensures r == [] <==> forall j :: 0 <= j < |ContainerSelectors| ==>
                           SelectorProducts(site, page, pageUrl, ContainerSelectors[j]) == []
    ensures r != [] ==> exists j :: && 0 <= j < |ContainerSelectors|
                                    && r == SelectorProducts(site, page, pageUrl, ContainerSelectors[j])
                                    && forall i :: 0 <= i < j ==>
                                         SelectorProducts(site, page, pageUrl, ContainerSelectors[i]) == []
  {
    FirstNonEmpty(SelectorLists(site, page, pageUrl))
  }

  // ---------------------------------------------------------------- strategy 2: structured data

  /** A Python call that completes with a value, or raises an exception the scraper does not
      catch. */
  datatype Outcome<T> = Ok(value: T) | Raised

  /** `item.get('@type', '').lower()`: a missing member reads as "", a string is lower-cased, and
      any other value has no `lower` (AttributeError). */
  function TypeText(members: seq<(string, Json)>): Outcome<string> {
    match Get(members, "@type")
    case None => Ok("")
    case Some(JStr(s)) => Ok(Lower(s))
    case Some(_) => Raised
  }

  /** `str(offers.get('price', ''))` cleaned, for an `offers` object. */
  function OfferPrice(offer: seq<(string, Json)>): Option<real> {
    CleanPrice(ScalarText(Get(offer, "price")))
  }

  /** The price of an item as written: from an `offers` object, or from the first element of a
      non-empty `offers` list, which must then be an object (AttributeError otherwise). */
  function OffersPriceAsWritten(offers: Option<Json>): Outcome<Option<real>> {
    match offers
    case None => Ok(None)
    case Some(JObj(m)) => Ok(OfferPrice(m))
    case Some(JArr(items)) =>
      if |items| == 0 then Ok(None)
      else if items[0].JObj? then Ok(OfferPrice(items[0].members))
      else Raised
    case Some(_) => Ok(None)
  }

  /** `image[0]` of a non-empty list, or the string itself. */
  function ItemImage(image: Option<Json>): string {
    match image
    case Some(JArr(items)) => if |items| > 0 then StringOr(Some(items[0])) else ""
    case Some(JStr(s)) => s
    case _ => ""
  }

  /** The `name` of a `brand` object, or the `brand` string itself. */
  function ItemBrand(brand: Option<Json>): string {
    match brand
    case Some(JObj(m)) => StringOr(Get(m, "name"))
    case _ => StringOr(brand)
  }

  /** The record of a product item whose price has been read. */
  function ItemProduct(m: seq<(string, Json)>, price: Option<real>, pageUrl: string): Product {
    Product(StringOr(Get(m, "name")), price, None, StringOr(Get(m, "description")),
            ItemImage(Get(m, "image")), pageUrl, ItemBrand(Get(m, "brand")),
            StringOr(Get(m, "sku")), StringOr(Get(m, "availability")))
  }

  /** `parse_structured_data_item` as written: not an object, or a type without "product",
      gives no product; a non-string `@type` or a non-object first offer raises. */
  function ParseItemAsWritten(item: Json, pageUrl: string): Outcome<Option<Product>> {
    match item
    case JObj(m) =>
      (match TypeText(m)
      case Raised => Raised
      case Ok(t) =>
        if !Contains(t, "product") then Ok(None)
        else
          (match OffersPriceAsWritten(Get(m, "offers"))
           case Raised => Raised
           case Ok(price) => Ok(Some(ItemProduct(m, price, pageUrl)))))
    case _ => Ok(None)
  }

  /** The `@type` of an item is a string (or missing) whose lower-cased form holds "product". */
  predicate ProductTyped(m: seq<(string, Json)>) {
    var t := Get(m, "@type");
    (t.None? || t.value.JStr?) && Contains(Lower(StringOr(t)), "product")
  }

  /** The first offer, when `offers` is an object or a list whose first element is one. */
  function FirstOffer(offers: Option<Json>): Option<seq<(string, Json)>> {
    match offers
    case Some(JObj(m)) => Some(m)
    case Some(JArr(items)) => if |items| > 0 && items[0].JObj? then Some(items[0].members) else None
    case _ => None
  }

  /** An item the reader can interpret: a product-typed object whose offers, when a non-empty
      list, start with an object. */
  predicate Readable(item: Json) {
    && item.JObj?
    && ProductTyped(item.members)
    && match Get(item.members, "offers")
       case Some(JArr(items)) => |items| == 0 || items[0].JObj?
       case _ => true
  }

  /** The corrected reader: an item it cannot interpret is skipped, as a script that does not
      decode is; every other item reads as in the source. */
  function ParseItem(item: Json, pageUrl: string): (r: Option<Product>)
    ensures r.Some? <==> Readable(item)
    ensures r.Some? ==> && r.value.url == pageUrl && r.value.originalPrice.None?
                        && r.value.name == StringOr(Get(item.members, "name"))
    ensures r.Some? ==> r.value.price == match FirstOffer(Get(item.members, "offers"))
                                        case Some(o) => OfferPrice(o)
                                        case None => None
    ensures r.Some? ==> && r.value.description == StringOr(Get(item.members, "description"))
                        && r.value.sku == StringOr(Get(item.members, "sku"))
                        && r.value.availability == StringOr(Get(item.members, "availability"))
    ensures r.Some? ==> var b := Get(item.members, "brand");
                        r.value.brand == if b.Some? && b.value.JObj? then StringOr(Get(b.value.members, "name"))
                                         else StringOr(b)
    ensures r.Some? ==> var im := Get(item.members, "image");
                        r.value.imageUrl == if im.Some? && im.value.JStr? then im.value.s
                                            else if im.Some? && im.value.JArr? && |im.value.items| > 0
                                            then StringOr(Some(im.value.items[0]))
                                            else ""
  {
    if !Readable(item) then None
    else
      var m := item.members;
      var price := match FirstOffer(Get(m, "offers")) case Some(o) => OfferPrice(o) case None => None;
      Some(ItemProduct(m, price, pageUrl))
  }

  /** Wherever the source's reader returns, the corrected one returns the same; where it raises,
      the corrected one skips the item. */
  lemma ParseItemAgrees(item: Json, pageUrl: string)
    ensures ParseItemAsWritten(item, pageUrl).Ok? ==>
              ParseItem(item, pageUrl) == ParseItemAsWritten(item, pageUrl).value
    ensures ParseItemAsWritten(item, pageUrl).Raised? ==> ParseItem(item, pageUrl).None?
  {
    if item.JObj? {
      var m := item.members;
      var t := TypeText(m);
      assert t.Ok? <==> (Get(m, "@type").None? || Get(m, "@type").value.JStr?);
      if t.Ok? {
        assert t.value == Lower(StringOr(Get(m, "@type")));
        assert ProductTyped(m) <==> Contains(t.value, "product");
      }
    }
  }

  /** The items of a decoded script: each element of a list, or the object itself. */
  function ScriptItems(data: Option<Json>): seq<Json> {
    match data
    case Some(JArr(items)) => items
    case Some(JObj(m)) => [JObj(m)]
    case _ => []
  }

  /** The products of `items`, in order, with the corrected reader. */
  function ItemsProducts(items: seq<Json>, pageUrl: string): (r: seq<Product>)
    ensures |r| <= |items|
  {
    if |items| == 0 then []
    else
      var pre := ItemsProducts(items[..|items| - 1], pageUrl);
      match ParseItem(items[|items| - 1], pageUrl)
      case Some(p) => pre + [p]
      case None => pre
  }

  /** `extract_from_structured_data` with the corrected reader. */
  function StructuredProducts(scripts: seq<Option<Json>>, pageUrl: string): seq<Product> {
    if |scripts| == 0 then []
    else StructuredProducts(scripts[..|scripts| - 1], pageUrl) +
         ItemsProducts(ScriptItems(scripts[|scripts| - 1]), pageUrl)
  }

  /** The products of `items` as written: the first item that raises ends the run. */
  function ItemsProductsAsWritten(items: seq<Json>, pageUrl: string): Outcome<seq<Product>> {
    if |items| == 0 then Ok([])
    else
      match ItemsProductsAsWritten(items[..|items| - 1], pageUrl)
      case Raised => Raised
      case Ok(pre) =>
        match ParseItemAsWritten(items[|items| - 1], pageUrl)
        case Raised => Raised
        case Ok(Some(p)) => Ok(pre + [p])
        case Ok(None) => Ok(pre)
  }

  /** `extract_from_structured_data` as written. */
  function StructuredAsWritten(scripts: seq<Option<Json>>, pageUrl: string): Outcome<seq<Product>> {
    if |scripts| == 0 then Ok([])
    else
      match StructuredAsWritten(scripts[..|scripts| - 1], pageUrl)
      case Raised => Raised
      case Ok(pre) =>
        match ItemsProductsAsWritten(ScriptItems(scripts[|scripts| - 1]), pageUrl)
        case Raised => Raised
        case Ok(more) => Ok(pre + more)
  }

  lemma {:induction false} ItemsAgree(items: seq<Json>, pageUrl: string)
    ensures ItemsProductsAsWritten(items, pageUrl).Ok? ==>
              ItemsProductsAsWritten(items, pageUrl).value == ItemsProducts(items, pageUrl)
  {
    if |items| > 0 {
      ItemsAgree(items[..|items| - 1], pageUrl);
      ParseItemAgrees(items[|items| - 1], pageUrl);
    }
  }

  /** Whenever the source's structured-data strategy returns, it returns what the corrected one
      does. */
  lemma {:induction false} StructuredAgrees(scripts: seq<Option<Json>>, pageUrl: string)
    ensures StructuredAsWritten(scripts, pageUrl).Ok? ==>
              StructuredAsWritten(scripts, pageUrl).value == StructuredProducts(scripts, pageUrl)
  {
    if |scripts| > 0 {
      StructuredAgrees(scripts[..|scripts| - 1], pageUrl);
      ItemsAgree(ScriptItems(scripts[|scripts| - 1]), pageUrl);
    }
  }

  /** A single item typed `["Product"]`, a list as schema.org allows, makes the source raise
      AttributeError, which `except json.JSONDecodeError` does not catch, ending the whole run;
      the corrected strategy skips it. */
  lemma ListTypedItemRaises(pageUrl: string)
    ensures var item := JObj([("@type", JArr([JStr("Product")]))]);
            && StructuredAsWritten([Some(item)], pageUrl) == Raised
            && StructuredProducts([Some(item)], pageUrl) == []
  {
    var item := JObj([("@type", JArr([JStr("Product")]))]);
    assert Get(item.members, "@type") == Some(JArr([JStr("Product")]));
    assert ScriptItems(Some(item)) == [item];
    assert [item][..0] == [];
    assert [Some(item)][..0] == [];
  }

  // ---------------------------------------------------------------- strategies 3 and 4

  /** Each present candidate, in order, once: `if product and product not in products`. */
  function Collect(candidates: seq<Option<Product>>): (r: seq<Product>)
    ensures forall i, j :: 0 <= i < j < |r| ==> r[i] != r[j]
    ensures forall p :: p in r <==> exists k :: 0 <= k < |candidates| && candidates[k] == Some(p)
  {
    if |candidates| == 0 then []
    else
      var pre := Collect(candidates[..|candidates| - 1]);
      assert forall k :: 0 <= k < |candidates| - 1 ==>
               candidates[..|candidates| - 1][k] == candidates[k];
      match candidates[|candidates| - 1]
      case None => pre
      case Some(p) => if p in pre then pre else pre + [p]
  }

  /** The walk up from a price text: the index of the first of its parent and the next four
      ancestors that looks like a product container. */
  function ContainerAbove(ancestors: seq<Element>, k: nat): (r: Option<nat>)
    requires k <= 5
    ensures r.Some? ==> && k <= r.value < 5 && r.value < |ancestors|
                        && LooksLikeProductContainer(ancestors[r.value])
                        && forall j :: k <= j < r.value ==> !LooksLikeProductContainer(ancestors[j])
    ensures r.None? ==> forall j :: k <= j < 5 && j < |ancestors| ==>
                          !LooksLikeProductContainer(ancestors[j])
    decreases 5 - k
  {
    if k == 5 || k >= |ancestors| then None
    else if LooksLikeProductContainer(ancestors[k]) then Some(k)
    else ContainerAbove(ancestors, k + 1)
  }

  /** The product found above one price text, if any. */
  function AnchoredProduct(site: Site, ancestors: seq<Element>, pageUrl: string): Option<Product> {
    match ContainerAbove(ancestors, 0)
    case Some(i) => Some(ExtractProduct(site, ancestors[i], pageUrl))
    case None => None
  }

  /** `extract_from_price_elements`: only the first 20 price texts are followed. */
  function PriceAnchored(site: Site, hits: seq<seq<Element>>, pageUrl: string): seq<Product> {
    var n := if |hits| < 20 then |hits| else 20;
    Collect(seq(n, i requires 0 <= i < n => AnchoredProduct(site, hits[i], pageUrl)))
  }

  /** The price-anchored products are distinct, and a product is among them exactly when one of
      the first 20 price texts has it as the first container of its five nearest ancestors. */
  lemma PriceAnchoredFound(site: Site, hits: seq<seq<Element>>, pageUrl: string, p: Product)
    ensures var r := PriceAnchored(site, hits, pageUrl);
            forall i, j :: 0 <= i < j < |r| ==> r[i] != r[j]
    ensures p in PriceAnchored(site, hits, pageUrl) <==>
              exists i :: 0 <= i < |hits| && i < 20 && AnchoredProduct(site, hits[i], pageUrl) == Some(p)
  {
    var n := if |hits| < 20 then |hits| else 20;
    var c := seq(n, i requires 0 <= i < n => AnchoredProduct(site, hits[i], pageUrl));
    assert forall i :: 0 <= i < n ==> c[i] == AnchoredProduct(site, hits[i], pageUrl);
  }

  /** The product of an image's parent whose text carries a price mark. */
  function ImageProduct(site: Site, parent: Element, pageUrl: string): Option<Product> {
    if HasPriceMark(parent.text, "USD") then Some(ExtractProduct(site, parent, pageUrl)) else None
  }

  /** `extract_from_images_with_prices`. */
  function ImageProducts(site: Site, parents: seq<Element>, pageUrl: string): seq<Product> {
    Collect(seq(|parents|, i requires 0 <= i < |parents| => ImageProduct(site, parents[i], pageUrl)))
  }

  /** The image products are distinct, and a product is among them exactly when it is read from
      an image's parent whose text has a `$N`, `N USD`, `€N` or `£N` mark. */
  lemma ImageProductsFound(site: Site, parents: seq<Element>, pageUrl: string, p: Product)
    ensures var r := ImageProducts(site, parents, pageUrl);
            forall i, j :: 0 <= i < j < |r| ==> r[i] != r[j]
    ensures p in ImageProducts(site, parents, pageUrl) <==>
              exists i :: && 0 <= i < |parents| && HasPriceMark(parents[i].text, "USD")
                          && p == ExtractProduct(site, parents[i], pageUrl)
  {
    var c := seq(|parents|, i requires 0 <= i < |parents| => ImageProduct(site, parents[i], pageUrl));
    assert forall i :: 0 <= i < |parents| ==> c[i] == ImageProduct(site, parents[i], pageUrl);
    var r := Collect(c);
    assert r == ImageProducts(site, parents, pageUrl);
    if p in r {
      var k :| 0 <= k < |c| && c[k] == Some(p);
      assert HasPriceMark(parents[k].text, "USD") && p == ExtractProduct(site, parents[k], pageUrl);
    }
    if exists i :: && 0 <= i < |parents| && HasPriceMark(parents[i].text, "USD")
                   && p == ExtractProduct(site, parents[i], pageUrl) {
      var i :| && 0 <= i < |parents| && HasPriceMark(parents[i].text, "USD")
               && p == ExtractProduct(site, parents[i], pageUrl);
      assert c[i] == Some(p);
    }
  }

  // ---------------------------------------------------------------- one page, all pages

  /** The first non-empty list of `lists`, or the empty list. */
  function FirstNonEmpty(lists: seq<seq<Product>>): (r: seq<Product>)
    ensures r == [] <==> forall k :: 0 <= k < |lists| ==> lists[k] == []
    ensures r != [] ==> exists k :: 0 <= k < |lists| && r == lists[k] &&
                                    forall j :: 0 <= j < k ==> lists[j] == []
  {
    if |lists| == 0 then []
    else if lists[0] != [] then lists[0]
    else
      var r := FirstNonEmpty(lists[1..]);
      assert forall k :: 1 <= k < |lists| ==> lists[1..][k - 1] == lists[k];
      r
  }

  /** The four strategies' results on a page, in the order they are tried. */
  function Strategies(site: Site, page: Page, pageUrl: string): seq<seq<Product>> {
    [ContainerProducts(site, page, pageUrl), StructuredProducts(page.jsonScripts, pageUrl),
     PriceAnchored(site, page.priceHits, pageUrl), ImageProducts(site, page.imageParents, pageUrl)]
  }

  /** `extract_products_from_page`: the products of the first strategy that finds any. */
  function PageProducts(site: Site, page: Page, pageUrl: string): (r: seq<Product>)
    ensures r == [] <==> forall k :: 0 <= k < 4 ==> Strategies(site, page, pageUrl)[k] == []
    ensures r != [] ==> exists k :: && 0 <= k < 4 && r == Strategies(site, page, pageUrl)[k]
                                    && forall j :: 0 <= j < k ==> Strategies(site, page, pageUrl)[j] == []
  {
    FirstNonEmpty(Strategies(site, page, pageUrl))
  }

  /** A page's container products, when there are any, are its products: the later strategies
      are not consulted. */
  lemma ContainersWin(site: Site, page: Page, pageUrl: string)
    requires ContainerProducts(site, page, pageUrl) != []
    ensures PageProducts(site, page, pageUrl) == ContainerProducts(site, page, pageUrl)
  {
  }

  /** The products found on the pages, in page order; a page that could not be fetched adds
      none. */
  function Found(site: Site, pages: seq<(string, Option<Page>)>): seq<Product> {
    if |pages| == 0 then []
    else
      var (url, page) := pages[|pages| - 1];
      Found(site, pages[..|pages| - 1]) +
      (match page case Some(pg) => PageProducts(site, pg, url) case None => [])
  }

  /** The duplicate key: the lower-cased name and the price. */
  function Key(p: Product): (string, Option<real>) {
    (Lower(p.name), p.price)
  }

  /** `scrape_all_products` over the discovered pages: every page's products in turn, then the
      first product of each key. */
  method ScrapeAllProducts(site: Site, pages: seq<(string, Option<Page>)>) returns (products: seq<Product>)
    ensures products == Dedup.KeepFirst(Found(site, pages), Key)
    ensures forall i, j :: 0 <= i < j < |products| ==> Key(products[i]) != Key(products[j])
    ensures Dedup.Keys(products, Key) == Dedup.Keys(Found(site, pages), Key)
  {
    var all: seq<Product> := [];
    for n := 0 to |pages|
      invariant all == Found(site, pages[..n])
    {
      assert pages[..n + 1][..n] == pages[..n];
      var (url, page) := pages[n];
      if page.Some? {
        all := all + PageProducts(site, page.value, url);
      } else {
        assert all + [] == all;
      }
    }
    assert pages[..|pages|] == pages;
    products := Dedup.Deduplicate(all, Key);
  }
}
