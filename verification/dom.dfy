/** What the scrapers read from parsed HTML, as data. The parser and the CSS selector engine are
    not modelled: an element is the record of what they return for it. */
module Dom {
  import opened Wrappers
  import opened Text
  import opened PriceText

  /** A matched element: its position in document order, `get_text()`,
      `get_text(strip=True)`, and its attributes. */
  datatype Node = Node(pos: nat, text: string, strippedText: string, attrs: map<string, string>)

  /** An element the scrapers search inside: its own texts, its class list and attributes, and,
      for each simple selector, the first descendant that matches it (`select_one`). */
  datatype Element = Element(text: string, strippedText: string, classes: seq<string>,
                             attrs: map<string, string>, first: map<string, Node>)

  /** `node.get(name, '')`; a missing attribute reads as the empty string, which is falsy as
      `None` is. */
  function Attr(attrs: map<string, string>, name: string): (r: string)
    ensures name !in attrs ==> r == ""
  {
    if name in attrs then attrs[name] else ""
  }

  /** `a.get(n1) or a.get(n2) or ...`: the first non-empty attribute of `names`, or "". */
  function FirstAttr(attrs: map<string, string>, names: seq<string>): (r: string)
    ensures r != "" ==> exists i :: 0 <= i < |names| && Attr(attrs, names[i]) == r
                         && forall j :: 0 <= j < i ==> Attr(attrs, names[j]) == ""
    ensures r == "" ==> forall j :: 0 <= j < |names| ==> Attr(attrs, names[j]) == ""
  {
    if |names| == 0 then ""
    else if Attr(attrs, names[0]) != "" then Attr(attrs, names[0])
    else
      var r := FirstAttr(attrs, names[1..]);
      assert forall j :: 1 <= j < |names| ==> names[1..][j - 1] == names[j];
      r
  }

  /** `element.select_one(sel)` for a simple selector. */
  function SelectOne(e: Element, sel: string): Option<Node> {
    if sel in e.first then Some(e.first[sel]) else None
  }

  /** `element.select_one("s1, s2, ...")`: of the elements any of the selectors matches, the one
      first in document order (on a tie, the one the earlier selector finds). */
  function SelectOneOf(e: Element, sels: seq<string>): (r: Option<Node>)
    ensures r.None? <==> forall i :: 0 <= i < |sels| ==> SelectOne(e, sels[i]).None?
    ensures r.Some? ==> exists i :: 0 <= i < |sels| && SelectOne(e, sels[i]) == r
    ensures r.Some? ==> forall i :: 0 <= i < |sels| && SelectOne(e, sels[i]).Some? ==>
                          r.value.pos <= SelectOne(e, sels[i]).value.pos
  {
    if |sels| == 0 then None
    else
      var rest := SelectOneOf(e, sels[1..]);
      assert forall i :: 1 <= i < |sels| ==> sels[1..][i - 1] == sels[i];
      match SelectOne(e, sels[0])
      case None => rest
      case Some(n) =>
        if rest.Some? && rest.value.pos < n.pos then rest else Some(n)
  }

  /** The selector `sel` matches an element that passes `ok`. */
  predicate Usable(e: Element, sel: string, ok: Node -> bool) {
    SelectOne(e, sel).Some? && ok(SelectOne(e, sel).value)
  }

  /** The loop `for selector in selectors: el = select_one(selector); if el and ok(el): ...; break`:
      the index of the first selector, in list order, whose element passes `ok`. */
  function FirstSelected(e: Element, sels: seq<string>, ok: Node -> bool, k: nat): (r: Option<nat>)
    requires k <= |sels|
    ensures r.Some? ==> k <= r.value < |sels| && Usable(e, sels[r.value], ok)
    ensures r.Some? ==> forall j :: k <= j < r.value ==> !Usable(e, sels[j], ok)
    ensures r.None? ==> forall j :: k <= j < |sels| ==> !Usable(e, sels[j], ok)
    decreases |sels| - k
  {
    if k == |sels| then None
    else if Usable(e, sels[k], ok) then Some(k)
    else FirstSelected(e, sels, ok, k + 1)
  }

  /** Selector `j` is the first of `sels`, in list order, whose element passes `ok`. */
  predicate FirstUsable(e: Element, sels: seq<string>, ok: Node -> bool, j: int) {
    && 0 <= j < |sels| && Usable(e, sels[j], ok)
    && forall i :: 0 <= i < j ==> !Usable(e, sels[i], ok)
  }

  /** The node of the first usable selector, if any. */
  function FirstNode(e: Element, sels: seq<string>, ok: Node -> bool): (r: Option<Node>)
    ensures r.Some? ==> ok(r.value)
    ensures r.Some? <==> exists j :: 0 <= j < |sels| && Usable(e, sels[j], ok)
    ensures r.Some? <==> exists j :: FirstUsable(e, sels, ok, j)
    ensures forall j :: FirstUsable(e, sels, ok, j) ==> r == SelectOne(e, sels[j])
  {
    match FirstSelected(e, sels, ok, 0)
    case Some(i) =>
      assert FirstUsable(e, sels, ok, i);
      SelectOne(e, sels[i])
    case None => None
  }

  /** The stripped text of a node is usable as a name. */
  predicate HasText(n: Node) {
    n.strippedText != ""
  }

  /** The stripped text of a node reads as a non-zero price. */
  predicate HasPrice(n: Node) {
    Truthy(CleanPrice(n.strippedText))
  }

  /** Any matched node. */
  predicate Exists(n: Node) {
    true
  }

  /** The stripped text of the element of the first selector whose element passes `ok`. */
  function FirstText(e: Element, sels: seq<string>, ok: Node -> bool): (r: Option<string>)
    ensures r.Some? <==> exists j :: FirstUsable(e, sels, ok, j)
    ensures forall j :: FirstUsable(e, sels, ok, j) ==> r == Some(SelectOne(e, sels[j]).value.strippedText)
  {
    match FirstNode(e, sels, ok)
    case Some(n) => Some(n.strippedText)
    case None => None
  }

  /** The loop `for sel in selectors: el = select_one(sel); if el: price = extract_price(...);
      if price: ...; break`: the price of the first selector whose element reads as a non-zero
      price. */
  function FirstPrice(e: Element, sels: seq<string>): (r: Option<real>)
    ensures r.None? || Truthy(r)
    ensures r.Some? <==> exists j :: FirstUsable(e, sels, HasPrice, j)
    ensures forall j :: FirstUsable(e, sels, HasPrice, j) ==>
              r == CleanPrice(SelectOne(e, sels[j]).value.strippedText)
  {
    match FirstNode(e, sels, HasPrice)
    case Some(n) => CleanPrice(n.strippedText)
    case None => None
  }

  /** `text[:n] + '...' if len(text) > n else text`. */
  function Shorten(text: string, n: nat): (r: string)
    ensures |text| <= n ==> r == text
    ensures |text| > n ==> |r| == n + 3 && r[..n] == text[..n] && r[n..] == "..."
  {
    if |text| > n then text[..n] + "..." else text
  }

  /** A parsed page: the page as an element to search in, and `soup.select(sel)` (every match,
      in document order) for each selector a scraper lists. */
  datatype Document = Document(root: Element, all: map<string, seq<Element>>)

  /** `soup.select(sel)`. */
  function SelectAll(all: map<string, seq<Element>>, sel: string): seq<Element> {
    if sel in all then all[sel] else []
  }

  /** Selector `j` is the first of `sels` that matches any element. */
  predicate FirstMatched(all: map<string, seq<Element>>, sels: seq<string>, j: int) {
    && 0 <= j < |sels| && SelectAll(all, sels[j]) != []
    && forall i :: 0 <= i < j ==> SelectAll(all, sels[i]) == []
  }

  /** The loop `for sel in selectors: els = soup.select(sel); if els: ...; break`: the index of
      the first selector, from `k` on, that matches any element. */
  function FirstMatching(all: map<string, seq<Element>>, sels: seq<string>, k: nat): (r: Option<nat>)
    requires k <= |sels|
    ensures r.Some? ==> k <= r.value < |sels| && SelectAll(all, sels[r.value]) != []
    ensures r.Some? ==> forall j :: k <= j < r.value ==> SelectAll(all, sels[j]) == []
    ensures r.None? <==> forall j :: k <= j < |sels| ==> SelectAll(all, sels[j]) == []
    ensures k == 0 ==> forall j :: FirstMatched(all, sels, j) ==> r == Some(j)
    decreases |sels| - k
  {
    if k == |sels| then None
    else if SelectAll(all, sels[k]) != [] then Some(k)
    else FirstMatching(all, sels, k + 1)
  }

  /** The site a scraper works on, and `urljoin`, which is left uninterpreted. */
  datatype Site = Site(baseUrl: string, urljoin: (string, string) -> string)

  /** The image source of `img.get('src') or img.get('data-src') ...`, resolved against the base
      URL, or "" when every attribute is empty. */
  function ImageUrl(site: Site, img: Option<Node>, names: seq<string>): (r: string)
    ensures img.None? ==> r == ""
    ensures img.Some? && FirstAttr(img.value.attrs, names) != "" ==>
              r == site.urljoin(site.baseUrl, FirstAttr(img.value.attrs, names))
    ensures img.Some? && FirstAttr(img.value.attrs, names) == "" ==> r == ""
  {
    match img
    case None => ""
    case Some(n) =>
      var src := FirstAttr(n.attrs, names);
      if src != "" then site.urljoin(site.baseUrl, src) else ""
  }
}
