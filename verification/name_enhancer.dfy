/** The product-name enhancer of the table builder, `enhanced_product_table.py`: a row's name is
    replaced by a generic name chosen from its category and price, or from its image URL when the
    category says nothing; and the three price tiers of the summary. */
module NameEnhancer {
  import opened Wrappers
  import opened Text
  import opened OrderedTable

  // ---------------------------------------------------------------- names from image URLs

  /** The branches of `get_product_name_from_image_url`, in the order they are checked: each name
      with the keywords that select it. */
  const ImageRules: seq<(string, seq<string>)> := [
    ("Laptop Computer", ["laptop"]),
    ("Mobile Phone", ["phone", "mobile"]),
    ("Camera", ["camera"]),
    ("Headset/Headphones", ["headset", "headphone"]),
    ("Cable", ["cable"]),
    ("Adapter", ["adapter", "adaptor"]),
    ("Printer", ["printer"]),
    ("Scanner", ["scanner"]),
    ("Storage Device", ["storage", "drive"]),
    ("Gaming Accessory", ["gaming", "game"]),
    ("Smart Watch", ["watch"]),
    ("Television", ["tv", "television"])
  ]

  /** `get_product_name_from_image_url(image_url)`: "Unknown Product" for an empty URL, otherwise
      the name of the first branch with a keyword in the lower-cased URL, or
      "Electronics Product" when none has. */
  function NameFromImageUrl(imageUrl: string): (r: string)
    ensures imageUrl == "" ==> r == "Unknown Product"
    ensures imageUrl != "" ==>
              (exists i :: 0 <= i < |ImageRules| && AnyIn(ImageRules[i].1, Lower(imageUrl))
                           && r == ImageRules[i].0
                           && forall j :: 0 <= j < i ==> !AnyIn(ImageRules[j].1, Lower(imageUrl)))
              || ((forall j :: 0 <= j < |ImageRules| ==> !AnyIn(ImageRules[j].1, Lower(imageUrl)))
                  && r == "Electronics Product")
  {
    if imageUrl == "" then "Unknown Product"
    else
      match FirstPatternRow(ImageRules, Lower(imageUrl), 0)
      case Some(i) => ImageRules[i].0
      case None => "Electronics Product"
  }

  /** A URL naming a laptop is a laptop, whatever else it names. */
  lemma LaptopUrlFirst(imageUrl: string)
    requires Contains(Lower(imageUrl), "laptop")
    ensures NameFromImageUrl(imageUrl) == "Laptop Computer"
  {
    AnyInOne("laptop", Lower(imageUrl));
    assert AnyIn(ImageRules[0].1, Lower(imageUrl));
  }

  // ---------------------------------------------------------------- names from categories

  /** Price steps checked in order: the name of the first step whose threshold the price strictly
      exceeds, or `otherwise`. */
  datatype Tiers = Tiers(steps: seq<(real, string)>, otherwise: string)

  function TierName(t: Tiers, price: real): (r: string)
    ensures (exists i :: 0 <= i < |t.steps| && price > t.steps[i].0 && r == t.steps[i].1
                         && forall j :: 0 <= j < i ==> price <= t.steps[j].0)
            || ((forall j :: 0 <= j < |t.steps| ==> price <= t.steps[j].0) && r == t.otherwise)
    decreases |t.steps|
  {
    if |t.steps| == 0 then t.otherwise
    else if price > t.steps[0].0 then t.steps[0].1
    else
      var r := TierName(Tiers(t.steps[1..], t.otherwise), price);
      assert forall i :: 0 <= i < |t.steps| - 1 ==> t.steps[1..][i] == t.steps[i + 1];
      r
  }

  /** The branches of `enhance_product_names_with_categories`, in the order they are checked:
      each price split with the keywords of the lower-cased category that select it. */
  const CategoryBranches: seq<(Tiers, seq<string>)> := [
    (Tiers([(2000.0, "Premium Smartphone"), (1000.0, "Mid-Range Smartphone")], "Budget Smartphone"),
     ["smart-phones", "phone"]),
    (Tiers([(5000.0, "High-End Computer"), (2000.0, "Desktop Computer"),
            (1000.0, "Computer Component")], "Computer Accessory"),
     ["computing"]),
    (Tiers([(1000.0, "Professional Camera"), (500.0, "Digital Camera")], "Camera Accessory"),
     ["photography-camera", "camera"]),
    (Tiers([(5000.0, "Professional Printer"), (2000.0, "Office Printer")], "Home Printer"),
     ["printers"]),
    (Tiers([(100.0, "Premium Accessory")], "Electronics Accessory"), ["accessories"]),
    (Tiers([(50.0, "Premium Cable")], "Standard Cable"), ["cables"]),
    (Tiers([(500.0, "Power Adapter/Charger"), (100.0, "USB Adapter")], "Connector Adapter"),
     ["adaptor"]),
    (Tiers([(400.0, "Premium Headset")], "Audio Headset"), ["headsets"]),
    (Tiers([(1000.0, "Gaming Console/System")], "Gaming Accessory"), ["gaming"]),
    (Tiers([(500.0, "External Storage Drive")], "Storage Device"), ["storage"]),
    (Tiers([], "Smart Watch"), ["smart-watches"]),
    (Tiers([], "Document Scanner"), ["scanners"]),
    (Tiers([(1000.0, "Smart TV")], "Television"), ["tv"]),
    (Tiers([], "Printer Ink/Toner"), ["ink", "toners"]),
    (Tiers([], "Screen Protector"), ["screen-protectors"]),
    (Tiers([(500.0, "Bluetooth Speaker")], "Bluetooth Accessory"), ["bluetooth-devices"]),
    (Tiers([], "Signal Converter"), ["converter"])
  ]

  /** The name one row gets: from the first category branch with a keyword in the lower-cased
      category, split by price; from the image URL only when no branch has one. */
  function EnhancedName(category: string, price: real, imageUrl: string): (r: string)
    ensures (exists i :: 0 <= i < |CategoryBranches|
                         && AnyIn(CategoryBranches[i].1, Lower(category))
                         && r == TierName(CategoryBranches[i].0, price)
                         && forall j :: 0 <= j < i ==> !AnyIn(CategoryBranches[j].1, Lower(category)))
            || ((forall j :: 0 <= j < |CategoryBranches| ==>
                   !AnyIn(CategoryBranches[j].1, Lower(category)))
                && r == NameFromImageUrl(imageUrl))
  {
    match FirstPatternRow(CategoryBranches, Lower(category), 0)
    case Some(i) => TierName(CategoryBranches[i].0, price)
    case None => NameFromImageUrl(imageUrl)
  }

  /** Phone categories are checked first, with strict thresholds 2000 and 1000. */
  lemma PhoneTiers(category: string, price: real, imageUrl: string)
    requires Contains(Lower(category), "phone")
    ensures EnhancedName(category, price, imageUrl) ==
              if price > 2000.0 then "Premium Smartphone"
              else if price > 1000.0 then "Mid-Range Smartphone"
              else "Budget Smartphone"
  {
    AnyInTwo("smart-phones", "phone", Lower(category));
    assert AnyIn(CategoryBranches[0].1, Lower(category));
    var t := CategoryBranches[0].0;
    assert t.steps[1..][1..] == [];
  }

  /** "smart-phones" holds "phone", so the first keyword of the phone branch adds nothing. */
  lemma SmartPhonesHoldsPhone(c: string)
    requires Contains(c, "smart-phones")
    ensures Contains(c, "phone")
  {
    assert OccursAt("phone", "smart-phones", 6);
    ContainsTrans(c, "smart-phones", "phone");
  }

  /** A computing category that is not a phone category gets strict thresholds 5000, 2000, 1000. */
  lemma ComputingTiers(category: string, price: real, imageUrl: string)
    requires Contains(Lower(category), "computing") && !Contains(Lower(category), "phone")
    ensures EnhancedName(category, price, imageUrl) ==
              if price > 5000.0 then "High-End Computer"
              else if price > 2000.0 then "Desktop Computer"
              else if price > 1000.0 then "Computer Component"
              else "Computer Accessory"
  {
    var c := Lower(category);
    if Contains(c, "smart-phones") { SmartPhonesHoldsPhone(c); }
    AnyInTwo("smart-phones", "phone", c);
    AnyInOne("computing", c);
    assert !AnyIn(CategoryBranches[0].1, c);
    assert AnyIn(CategoryBranches[1].1, c);
    var t := CategoryBranches[1].0;
    assert t.steps[1..][1..][1..] == [];
  }

  /** When a category branch matches, the image URL plays no part. */
  lemma UrlIgnoredWhenCategoryMatches(category: string, price: real, u1: string, u2: string)
    requires exists j :: 0 <= j < |CategoryBranches| && AnyIn(CategoryBranches[j].1, Lower(category))
    ensures EnhancedName(category, price, u1) == EnhancedName(category, price, u2)
  {
  }

  /** When no category branch matches, the price plays no part and the URL decides. */
  lemma UrlDecidesOtherwise(category: string, p1: real, p2: real, imageUrl: string)
    requires forall j :: 0 <= j < |CategoryBranches| ==> !AnyIn(CategoryBranches[j].1, Lower(category))
    ensures EnhancedName(category, p1, imageUrl) == EnhancedName(category, p2, imageUrl)
              == NameFromImageUrl(imageUrl)
  {
  }

  // ---------------------------------------------------------------- rows

  /** One row of the product table: the columns the enhancer reads, its name, and the rest. */
  datatype Row = Row(name: string, category: string, price: real, imageUrl: string,
                     others: map<string, string>)

  /** `enhance_product_names_with_categories(df)`: a copy of the table in which only each row's
      name is overwritten. */
  function EnhanceNames(rows: seq<Row>): (r: seq<Row>)
    ensures |r| == |rows|
    ensures forall i :: 0 <= i < |rows| ==> r[i].(name := rows[i].name) == rows[i]
    ensures forall i :: 0 <= i < |rows| ==>
              r[i].name == EnhancedName(rows[i].category, rows[i].price, rows[i].imageUrl)
  {
    seq(|rows|, i requires 0 <= i < |rows| =>
      rows[i].(name := EnhancedName(rows[i].category, rows[i].price, rows[i].imageUrl)))
  }

  /** Enhancing twice is enhancing once: the new name depends only on columns left unchanged. */
  lemma EnhanceNamesIdempotent(rows: seq<Row>)
    ensures EnhanceNames(EnhanceNames(rows)) == EnhanceNames(rows)
  {
  }

  // ---------------------------------------------------------------- price tiers

  datatype PriceTier = Budget | MidRange | Premium

  /** The summary's tiers: at most 100, above 100 up to 1000, above 1000. */
  function TierOf(price: real): (t: PriceTier)
    ensures t == Budget <==> price <= 100.0
    ensures t == MidRange <==> 100.0 < price <= 1000.0
    ensures t == Premium <==> price > 1000.0
  {
    if price <= 100.0 then Budget else if price <= 1000.0 then MidRange else Premium
  }

  /** The number of prices in tier `t`. */
  function CountTier(prices: seq<real>, t: PriceTier): nat {
    if |prices| == 0 then 0
    else CountTier(prices[..|prices| - 1], t) + (if TierOf(prices[|prices| - 1]) == t then 1 else 0)
  }

  /** The three tier counts add up to the number of prices: every price is in exactly one. */
  lemma {:induction false} TiersPartition(prices: seq<real>)
    ensures CountTier(prices, Budget) + CountTier(prices, MidRange) + CountTier(prices, Premium)
            == |prices|
    decreases |prices|
  {
    if |prices| > 0 {
      TiersPartition(prices[..|prices| - 1]);
    }
  }
}
