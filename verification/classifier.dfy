/** The filename classifier of the two catalog generators (`enhanced_product_catalog.py` and
    `simple_catalog.py`): a product named after its image file gets a brand, a category with
    a subcategory, an estimated price in cedis, a description, five feature bullets and a SKU.
    Both generators share every function; they differ in their keyword literal and in the
    bytes of the feature bullet. */
module Classifier {
  import opened Wrappers
  import opened Text
  import opened OrderedTable
  import opened CatalogTables
  import opened Filtering
  import BasicCatalog

  // ---------------------------------------------------------------- price estimate

  const PremiumKeywords: seq<string> := ["pro", "premium", "professional", "gaming", "wireless", "smart"]
  const BudgetKeywords: seq<string> := ["basic", "lite", "mini", "compact"]

  /** A price multiplier `num / den`, the exact value of the float literal the source uses. */
  datatype Factor = Factor(num: nat, den: nat)

  const One := Factor(1, 1)

  /** `int(b * f)`: the exact product, truncated toward zero as `int()` does. */
  function Scale(b: int, f: Factor): (r: int)
    requires f.den > 0
    ensures b >= 0 ==> r * f.den <= b * f.num < (r + 1) * f.den
    ensures b < 0 ==> (-r) * f.den <= (-b) * f.num < (-r + 1) * f.den
  {
    if b >= 0 then b * f.num / f.den else -((-b) * f.num / f.den)
  }

  /** The premium/budget step: ×1.3 when a premium keyword occurs, otherwise ×0.8 when a
      budget keyword occurs, otherwise nothing. */
  function TierFactor(lower: string): (f: Factor)
    ensures f.den > 0
  {
    if AnyIn(PremiumKeywords, lower) then Factor(13, 10)
    else if AnyIn(BudgetKeywords, lower) then Factor(8, 10)
    else One
  }

  /** The capacity step: any 'tb' selects the terabyte rules (4tb, then 2tb, then 1tb) and
      skips the gigabyte rules (512gb or 256gb, then 128gb, then 32gb or 16gb). */
  function CapacityFactor(lower: string): (f: Factor)
    ensures f.den > 0
  {
    if Contains(lower, "tb") then
      if Contains(lower, "4tb") then Factor(25, 10)
      else if Contains(lower, "2tb") then Factor(18, 10)
      else if Contains(lower, "1tb") then Factor(13, 10)
      else One
    else if Contains(lower, "gb") then
      if Contains(lower, "512gb") || Contains(lower, "256gb") then Factor(12, 10)
      else if Contains(lower, "128gb") then Factor(11, 10)
      else if Contains(lower, "32gb") || Contains(lower, "16gb") then Factor(9, 10)
      else One
    else One
  }

  /** `max(lo, min(hi, x))`. */
  function Clamp(lo: int, hi: int, x: int): (r: int)
    ensures lo <= hi ==> lo <= r <= hi
    ensures lo <= hi && lo <= x <= hi ==> r == x
    ensures lo > hi ==> r == lo
  {
    if hi < x then (if lo < hi then hi else lo)
    else if lo < x then x else lo
  }

  /** The price before the clamp: the band's midpoint, floored, then the tier step, then the
      capacity step. */
  function RawEstimate(name: string, lo: int, hi: int): int {
    var lower := Lower(name);
    Scale(Scale((lo + hi) / 2, TierFactor(lower)), CapacityFactor(lower))
  }

  /** `estimate_price(name, lo, hi)`: always inside the band when the band is not empty. */
  function EstimatePrice(name: string, lo: int, hi: int): (r: int)
    ensures lo <= hi ==> lo <= r <= hi
    ensures lo > hi ==> r == lo
  {
    Clamp(lo, hi, RawEstimate(name, lo, hi))
  }

  /** The floored midpoint of a band lies inside it. */
  lemma MidpointInBand(lo: int, hi: int)
    requires lo <= hi
    ensures lo <= (lo + hi) / 2 <= hi
  {
  }

  /** A name without tier keywords and without 'tb' or 'gb' is priced at the band's midpoint. */
  lemma PlainNameAtMidpoint(name: string, lo: int, hi: int)
    requires lo <= hi
    requires !AnyIn(PremiumKeywords, Lower(name)) && !AnyIn(BudgetKeywords, Lower(name))
    requires !Contains(Lower(name), "tb") && !Contains(Lower(name), "gb")
    ensures EstimatePrice(name, lo, hi) == (lo + hi) / 2
  {
    MidpointInBand(lo, hi);
  }

  /** Budget keywords are not looked at once a premium keyword occurs: two names with a premium
      keyword and the same capacity step get the same price, whatever else they contain. */
  lemma PremiumHidesBudget(n1: string, n2: string, lo: int, hi: int)
    requires AnyIn(PremiumKeywords, Lower(n1)) && AnyIn(PremiumKeywords, Lower(n2))
    requires CapacityFactor(Lower(n1)) == CapacityFactor(Lower(n2))
    ensures EstimatePrice(n1, lo, hi) == EstimatePrice(n2, lo, hi)
  {
  }

  /** The tier step: ×1.3 for a premium keyword, ×0.8 for a budget keyword without one, and
      nothing for neither. */
  lemma TierSteps(name: string)
    ensures AnyIn(PremiumKeywords, Lower(name)) ==> TierFactor(Lower(name)) == Factor(13, 10)
    ensures !AnyIn(PremiumKeywords, Lower(name)) && AnyIn(BudgetKeywords, Lower(name)) ==>
              TierFactor(Lower(name)) == Factor(8, 10)
    ensures !AnyIn(PremiumKeywords, Lower(name)) && !AnyIn(BudgetKeywords, Lower(name)) ==>
              TierFactor(Lower(name)) == One
  {
  }

  /** Multiplying by a non-negative number keeps order. */
  lemma MulMonotone(a: int, b: int, n: int)
    requires 0 <= a <= b && 0 <= n
    ensures 0 <= a * n <= b * n
  {
    assert b * n == a * n + (b - a) * n;
  }

  /** Dividing by a positive number keeps order. */
  lemma DivMonotone(p: int, q: int, d: int)
    requires 0 <= p <= q && 0 < d
    ensures 0 <= p / d <= q / d
  {
    var x, y := p / d, q / d;
    assert p == x * d + p % d && q == y * d + q % d;
    if x > y {
      MulMonotone(y + 1, x, d);
      assert false;
    }
  }

  /** Truncated scaling of a non-negative amount is monotone in the amount. */
  lemma ScaleMonotone(b1: int, b2: int, f: Factor)
    requires 0 <= b1 <= b2 && 0 < f.den
    ensures 0 <= Scale(b1, f) <= Scale(b2, f)
  {
    MulMonotone(b1, b2, f.num);
    DivMonotone(b1 * f.num, b2 * f.num, f.den);
  }

  /** On a non-negative amount the budget step lowers, and the premium step raises. */
  lemma TierScaling(b: int)
    requires 0 <= b
    ensures 0 <= Scale(b, Factor(8, 10)) <= Scale(b, One) == b <= Scale(b, Factor(13, 10))
  {
  }

  /** Clamping keeps order. */
  lemma ClampMonotone(lo: int, hi: int, x: int, y: int)
    requires x <= y
    ensures Clamp(lo, hi, x) <= Clamp(lo, hi, y)
  {
  }

  /** With a non-negative band and the same capacity step, a premium name is estimated at least
      as high as a name with no tier keyword, and that one at least as high as a budget name. */
  lemma TierOrder(premium: string, plain: string, budget: string, lo: int, hi: int)
    requires 0 <= lo <= hi
    requires AnyIn(PremiumKeywords, Lower(premium))
    requires !AnyIn(PremiumKeywords, Lower(plain)) && !AnyIn(BudgetKeywords, Lower(plain))
    requires !AnyIn(PremiumKeywords, Lower(budget)) && AnyIn(BudgetKeywords, Lower(budget))
    requires CapacityFactor(Lower(premium)) == CapacityFactor(Lower(plain)) == CapacityFactor(Lower(budget))
    ensures RawEstimate(budget, lo, hi) <= RawEstimate(plain, lo, hi) <= RawEstimate(premium, lo, hi)
    ensures EstimatePrice(budget, lo, hi) <= EstimatePrice(plain, lo, hi) <= EstimatePrice(premium, lo, hi)
  {
    var mid := (lo + hi) / 2;
    var c := CapacityFactor(Lower(plain));
    TierSteps(premium);
    TierSteps(plain);
    TierSteps(budget);
    TierScaling(mid);
    ScaleMonotone(Scale(mid, Factor(8, 10)), Scale(mid, One), c);
    ScaleMonotone(Scale(mid, One), Scale(mid, Factor(13, 10)), c);
    ClampMonotone(lo, hi, RawEstimate(budget, lo, hi), RawEstimate(plain, lo, hi));
    ClampMonotone(lo, hi, RawEstimate(plain, lo, hi), RawEstimate(premium, lo, hi));
  }

  /** Matching is by substring: a projector is a premium product because it contains "pro". */
  lemma ProjectorIsPremium(name: string)
    requires Contains(Lower(name), "projector")
    ensures TierFactor(Lower(name)) == Factor(13, 10)
  {
    assert OccursAt("pro", "projector", 0);
    ContainsTrans(Lower(name), "projector", "pro");
    assert Contains(Lower(name), PremiumKeywords[0]);
  }

  /** A 'tb' anywhere shuts out the gigabyte rules, even without a 4tb, 2tb or 1tb token. */
  lemma TerabyteShadowsGigabyte(name: string)
    requires Contains(Lower(name), "tb")
    requires !Contains(Lower(name), "4tb") && !Contains(Lower(name), "2tb") && !Contains(Lower(name), "1tb")
    ensures CapacityFactor(Lower(name)) == One
  {
  }

    /** A word holding `s` at its end puts `s` in every text that holds the word. */
  lemma EndingContained(lower: string, w: string, s: string)
    requires Contains(lower, w) && |s| <= |w| && w[|w| - |s|..] == s
    ensures Contains(lower, s)
  {
    assert OccursAt(s, w, |w| - |s|);
    ContainsTrans(lower, w, s);
  }

  /** The terabyte steps in order: 4tb, then 2tb, then 1tb. */
  lemma LargerTerabyteFirst(lower: string)
    ensures Contains(lower, "4tb") ==> CapacityFactor(lower) == Factor(25, 10)
    ensures !Contains(lower, "4tb") && Contains(lower, "2tb") ==> CapacityFactor(lower) == Factor(18, 10)
    ensures !Contains(lower, "4tb") && !Contains(lower, "2tb") && Contains(lower, "1tb") ==>
              CapacityFactor(lower) == Factor(13, 10)
  {
    if Contains(lower, "4tb") { EndingContained(lower, "4tb", "tb"); }
    if Contains(lower, "2tb") { EndingContained(lower, "2tb", "tb"); }
    if Contains(lower, "1tb") { EndingContained(lower, "1tb", "tb"); }
  }

  /** The gigabyte steps in order, when no 'tb' occurs: 512gb or 256gb, then 128gb, then 32gb or
      16gb. */
  lemma LargerGigabyteFirst(lower: string)
    requires !Contains(lower, "tb")
    ensures Contains(lower, "512gb") || Contains(lower, "256gb") ==> CapacityFactor(lower) == Factor(12, 10)
    ensures !Contains(lower, "512gb") && !Contains(lower, "256gb") && Contains(lower, "128gb") ==>
              CapacityFactor(lower) == Factor(11, 10)
    ensures !Contains(lower, "512gb") && !Contains(lower, "256gb") && !Contains(lower, "128gb")
            && (Contains(lower, "32gb") || Contains(lower, "16gb")) ==>
              CapacityFactor(lower) == Factor(9, 10)
  {
    if Contains(lower, "512gb") { GigabyteContained(lower, "512gb"); }
    if Contains(lower, "256gb") { GigabyteContained(lower, "256gb"); }
    if Contains(lower, "128gb") { GigabyteContained(lower, "128gb"); }
    if Contains(lower, "32gb") { GigabyteContained(lower, "32gb"); }
    if Contains(lower, "16gb") { GigabyteContained(lower, "16gb"); }
  }

  /** A text holding a capacity that ends in "gb" holds "gb". */
  lemma GigabyteContained(lower: string, w: string)
    requires Contains(lower, w) && |w| >= 2 && w[|w| - 2] == 'g' && w[|w| - 1] == 'b'
    ensures Contains(lower, "gb")
  {
    assert w[|w| - 2..] == "gb";
    EndingContained(lower, w, "gb");
  }

  /** Within each branch the larger capacity is checked first: 4tb, 2tb, 1tb; and, without 'tb',
      512gb or 256gb, 128gb, 32gb or 16gb. */
  lemma LargerSizeFirst(name: string)
    ensures Contains(Lower(name), "4tb") ==> CapacityFactor(Lower(name)) == Factor(25, 10)
    ensures !Contains(Lower(name), "4tb") && Contains(Lower(name), "2tb") ==>
              CapacityFactor(Lower(name)) == Factor(18, 10)
    ensures !Contains(Lower(name), "4tb") && !Contains(Lower(name), "2tb") && Contains(Lower(name), "1tb") ==>
              CapacityFactor(Lower(name)) == Factor(13, 10)
    ensures !Contains(Lower(name), "tb") && (Contains(Lower(name), "512gb") || Contains(Lower(name), "256gb")) ==>
              CapacityFactor(Lower(name)) == Factor(12, 10)
    ensures !Contains(Lower(name), "tb") && !Contains(Lower(name), "512gb") && !Contains(Lower(name), "256gb")
            && Contains(Lower(name), "128gb") ==>
              CapacityFactor(Lower(name)) == Factor(11, 10)
    ensures !Contains(Lower(name), "tb") && !Contains(Lower(name), "512gb") && !Contains(Lower(name), "256gb")
            && !Contains(Lower(name), "128gb") && (Contains(Lower(name), "32gb") || Contains(Lower(name), "16gb")) ==>
              CapacityFactor(Lower(name)) == Factor(9, 10)
  {
    var lower := Lower(name);
    LargerTerabyteFirst(lower);
    if !Contains(lower, "tb") {
      LargerGigabyteFirst(lower);
    }
  }

  // ---------------------------------------------------------------- category

  /** What `categorize_product_advanced` returns. */
  datatype Classification = Classification(category: string, subcategory: string, price: int)

  const Unclassified := Classification("Electronics", "Other", 500)

  /** Scanning a keyword dict in order: the first keyword occurring in the lower-cased name
      decides category and subcategory, and its band bounds the estimate; with no keyword,
      the fixed default and no estimate at all. */
  function Categorize(table: seq<(string, Band)>, name: string): (r: Classification)
    ensures FirstKeyIn(table, Lower(name)).None? ==> r == Unclassified
    ensures FirstKeyIn(table, Lower(name)).Some? ==>
              var b := table[FirstKeyIn(table, Lower(name)).value].1;
              && r.category == b.category && r.subcategory == b.subcategory
              && (b.minPrice <= b.maxPrice ==> b.minPrice <= r.price <= b.maxPrice)
  {
    match FirstKeyIn(table, Lower(name))
    case Some(j) =>
      var b := table[j].1;
      Classification(b.category, b.subcategory, EstimatePrice(name, b.minPrice, b.maxPrice))
    case None => Unclassified
  }

  /** The dict `CATEGORY_MAPPING` evaluates to in each generator. */
  function EnhancedTable(): seq<(string, Band)> {
    FromLiteral(EnhancedLiteral)
  }

  function SimpleTable(): seq<(string, Band)> {
    FromLiteral(SimpleLiteral)
  }

  /** Categorising with the dict a literal evaluates to is categorising with the literal's
      first matching keyword and the last value the literal gives that keyword. */
  lemma CategorizeByLiteral(lit: seq<(string, Band)>, name: string)
    ensures FirstKeyIn(lit, Lower(name)).None? ==> Categorize(FromLiteral(lit), name) == Unclassified
    ensures FirstKeyIn(lit, Lower(name)).Some? ==>
              var key := lit[FirstKeyIn(lit, Lower(name)).value].0;
              && HasKey(lit, key)
              && var b := LastValue(lit, key);
                 Categorize(FromLiteral(lit), name)
                 == Classification(b.category, b.subcategory, EstimatePrice(name, b.minPrice, b.maxPrice))
  {
    DictFirstMatch(lit, Lower(name));
  }

  /** Every band of a table is a proper interval. */
  predicate BandsOrdered(t: seq<(string, Band)>) {
    forall i :: 0 <= i < |t| ==> t[i].1.minPrice <= t[i].1.maxPrice
  }

  lemma BandsOrderedConcat(a: seq<(string, Band)>, b: seq<(string, Band)>)
    requires BandsOrdered(a) && BandsOrdered(b)
    ensures BandsOrdered(a + b)
  {
    forall i | 0 <= i < |a + b| ensures (a + b)[i].1.minPrice <= (a + b)[i].1.maxPrice {
      if i >= |a| { assert (a + b)[i] == b[i - |a|]; }
    }
  }

  /** Every band written in either generator's table has its minimum below its maximum. */
  lemma LiteralBandsOrdered()
    ensures BandsOrdered(EnhancedLiteral) && BandsOrdered(SimpleLiteral)
  {
    LeadingBandsOrdered();
    TrailingBandsOrdered();
    assert BandsOrdered(EnhancedCables) && BandsOrdered(SimpleCables);
    BandsOrderedConcat(LeadingGroups, EnhancedCables);
    BandsOrderedConcat(LeadingGroups + EnhancedCables, TrailingGroups);
    BandsOrderedConcat(LeadingGroups, SimpleCables);
    BandsOrderedConcat(LeadingGroups + SimpleCables, TrailingGroups);
  }

  lemma LeadingBandsOrdered()
    ensures BandsOrdered(LeadingGroups)
  {
    assert BandsOrdered(ComputingKeywords) && BandsOrdered(MobileKeywords);
    assert BandsOrdered(GamingKeywords) && BandsOrdered(AudioVideoKeywords);
    assert BandsOrdered(NetworkingKeywords) && BandsOrdered(StorageKeywords);
    assert BandsOrdered(DisplaysKeywords);
    var t := ComputingKeywords;
    BandsOrderedConcat(t, MobileKeywords);
    t := t + MobileKeywords;
    BandsOrderedConcat(t, GamingKeywords);
    t := t + GamingKeywords;
    BandsOrderedConcat(t, AudioVideoKeywords);
    t := t + AudioVideoKeywords;
    BandsOrderedConcat(t, NetworkingKeywords);
    t := t + NetworkingKeywords;
    BandsOrderedConcat(t, StorageKeywords);
    t := t + StorageKeywords;
    BandsOrderedConcat(t, DisplaysKeywords);
  }

  lemma TrailingBandsOrdered()
    ensures BandsOrdered(TrailingGroups)
  {
    assert BandsOrdered(OfficeKeywords) && BandsOrdered(PhotographyKeywords);
    assert BandsOrdered(WearablesKeywords) && BandsOrdered(PowerKeywords);
    assert BandsOrdered(MediaKeywords) && BandsOrdered(SecurityKeywords);
    assert BandsOrdered(InputDevicesKeywords) && BandsOrdered(HairCareKeywords);
    var t := OfficeKeywords;
    BandsOrderedConcat(t, PhotographyKeywords);
    t := t + PhotographyKeywords;
    BandsOrderedConcat(t, WearablesKeywords);
    t := t + WearablesKeywords;
    BandsOrderedConcat(t, PowerKeywords);
    t := t + PowerKeywords;
    BandsOrderedConcat(t, MediaKeywords);
    t := t + MediaKeywords;
    BandsOrderedConcat(t, SecurityKeywords);
    t := t + SecurityKeywords;
    BandsOrderedConcat(t, InputDevicesKeywords);
    t := t + InputDevicesKeywords;
    BandsOrderedConcat(t, HairCareKeywords);
  }

  // ---------------------------------------------------------------- facts about the two tables

  lemma TrailingLacksUsb()
    ensures !HasKey(TrailingGroups, "usb")
  {
  }

  lemma TrailingLacksVga()
    ensures !HasKey(TrailingGroups, "vga")
  {
  }

  lemma TrailingLacksLaptop()
    ensures !HasKey(TrailingGroups, "laptop")
  {
  }

  /** The enhanced literal writes 'usb' twice. The dict keeps the first position, among the
      storage keywords and just before 'sandisk', and takes the second value, the cables band. */
  lemma EnhancedUsbIsCable()
    ensures EnhancedLiteral[44].0 == "usb" && EnhancedLiteral[45].0 == "sandisk"
    ensures EnhancedLiteral[44].1 == Band("Storage", "USB Drives", 30, 200)
    ensures HasKey(EnhancedLiteral, "usb")
    ensures LastValue(EnhancedLiteral, "usb") == Band("Accessories", "Cables", 20, 150)
  {
    TrailingLacksUsb();
    assert EnhancedCables[2].0 == "usb";
    LastValueAt(EnhancedCables, 2, "usb");
    LastValueAppend(LeadingGroups, EnhancedCables, "usb");
    LastValueAppend(LeadingGroups + EnhancedCables, TrailingGroups, "usb");
  }

  /** The simple literal writes 'usb' once, as a storage keyword. */
  lemma SimpleUsbIsDrive()
    ensures SimpleLiteral[44].0 == "usb" && SimpleLiteral[45].0 == "sandisk"
    ensures HasKey(SimpleLiteral, "usb")
    ensures LastValue(SimpleLiteral, "usb") == Band("Storage", "USB Drives", 30, 200)
  {
    TrailingLacksUsb();
    LeadingUsbIsDrive();
    LiteralsShareLead(44);
    LiteralsShareLead(45);
    assert !HasKey(SimpleCables, "usb");
    LastValueAppend(LeadingGroups, SimpleCables, "usb");
    LastValueAppend(LeadingGroups + SimpleCables, TrailingGroups, "usb");
  }

  /** The groups before the cables write 'usb' once, among the storage keywords. */
  lemma LeadingUsbIsDrive()
    ensures LeadingGroups[44].0 == "usb" && LeadingGroups[45].0 == "sandisk"
    ensures HasKey(LeadingGroups, "usb")
    ensures LastValue(LeadingGroups, "usb") == Band("Storage", "USB Drives", 30, 200)
  {
    var front := ComputingKeywords + MobileKeywords + GamingKeywords + AudioVideoKeywords +
                 NetworkingKeywords;
    assert StorageKeywords[4].0 == "usb";
    LastValueAt(StorageKeywords, 4, "usb");
    LastValueAppend(front, StorageKeywords, "usb");
    assert !HasKey(DisplaysKeywords, "usb");
    LastValueAppend(front + StorageKeywords, DisplaysKeywords, "usb");
  }

  lemma VgaOnlyInEnhanced()
    ensures !HasKey(SimpleLiteral, "vga") && HasKey(EnhancedLiteral, "vga")
  {
    TrailingLacksVga();
    LeadingLacksVga();
    HasKeyConcat(LeadingGroups, SimpleCables, "vga");
    HasKeyConcat(LeadingGroups + SimpleCables, TrailingGroups, "vga");
    assert EnhancedLiteral[|LeadingGroups| + 3].0 == "vga";
  }

  lemma LeadingLacksVga()
    ensures !HasKey(LeadingGroups, "vga")
  {
  }

  /** 'laptop' is the first keyword of both literals and is written once. */
  lemma LaptopBand()
    ensures EnhancedLiteral[0].0 == "laptop" && SimpleLiteral[0].0 == "laptop"
    ensures HasKey(EnhancedLiteral, "laptop") && HasKey(SimpleLiteral, "laptop")
    ensures LastValue(EnhancedLiteral, "laptop") == Band("Computing", "Laptops", 15000, 30000)
    ensures LastValue(SimpleLiteral, "laptop") == Band("Computing", "Laptops", 15000, 30000)
  {
    CablesLackLaptop();
    LaptopAfterCables(EnhancedCables);
    LaptopAfterCables(SimpleCables);
  }

  lemma CablesLackLaptop()
    ensures !HasKey(EnhancedCables, "laptop") && !HasKey(SimpleCables, "laptop")
  {
  }

  /** A literal made of the leading groups, some cables without 'laptop' and the trailing groups
      starts with 'laptop' and maps it to the laptop band. */
  lemma LaptopAfterCables(cables: seq<(string, Band)>)
    requires !HasKey(cables, "laptop")
    ensures (LeadingGroups + cables + TrailingGroups)[0].0 == "laptop"
    ensures HasKey(LeadingGroups + cables + TrailingGroups, "laptop")
    ensures LastValue(LeadingGroups + cables + TrailingGroups, "laptop")
            == Band("Computing", "Laptops", 15000, 30000)
  {
    TrailingLacksLaptop();
    LeadingLaptopOnce();
    LastValueAppend(LeadingGroups, cables, "laptop");
    LastValueAppend(LeadingGroups + cables, TrailingGroups, "laptop");
  }

  lemma LeadingLaptopOnce()
    ensures LeadingGroups[0].0 == "laptop"
    ensures HasKey(LeadingGroups, "laptop")
    ensures LastValue(LeadingGroups, "laptop") == Band("Computing", "Laptops", 15000, 30000)
  {
    LastValueAt(LeadingGroups, 0, "laptop");
  }

  /** With every band ordered, the estimate of a classified name lies in the band of the
      keyword that classified it, whichever generator's table is used. */
  lemma CategorizedPriceInBand(lit: seq<(string, Band)>, name: string)
    requires BandsOrdered(lit)
    requires FirstKeyIn(lit, Lower(name)).Some?
    ensures var key := lit[FirstKeyIn(lit, Lower(name)).value].0;
            && HasKey(lit, key)
            && LastValue(lit, key).minPrice <= Categorize(FromLiteral(lit), name).price
            && Categorize(FromLiteral(lit), name).price <= LastValue(lit, key).maxPrice
  {
    CategorizeByLiteral(lit, name);
    var key := lit[FirstKeyIn(lit, Lower(name)).value].0;
    var j := LastValueEntry(lit, key);
  }

  // ---------------------------------------------------------------- what a name is classified as

  /** Both literals agree on every entry before the cables group. */
  lemma LiteralsShareLead(j: nat)
    requires j < |LeadingGroups|
    ensures EnhancedLiteral[j] == LeadingGroups[j] && SimpleLiteral[j] == LeadingGroups[j]
  {
  }

  /** A name containing "laptop" is a laptop with the laptop band in both generators, whatever
      brand words it also carries ('dell', 'hp', ...): 'laptop' is the first keyword. */
  lemma LaptopComesFirst(name: string)
    requires Contains(Lower(name), "laptop")
    ensures Categorize(EnhancedTable(), name)
            == Classification("Computing", "Laptops", EstimatePrice(name, 15000, 30000))
    ensures Categorize(SimpleTable(), name)
            == Classification("Computing", "Laptops", EstimatePrice(name, 15000, 30000))
  {
    LaptopBand();
    assert FirstKeyIn(EnhancedLiteral, Lower(name)) == Some(0);
    assert FirstKeyIn(SimpleLiteral, Lower(name)) == Some(0);
    CategorizeByLiteral(EnhancedLiteral, name);
    CategorizeByLiteral(SimpleLiteral, name);
  }

  /** The 'usb' entry sits before 'sandisk': a name that contains "usb" is matched at the 'usb'
      entry or earlier, never at 'sandisk' or anything after it. */
  lemma UsbBeforeSandisk(name: string)
    requires Contains(Lower(name), "usb")
    ensures FirstKeyIn(EnhancedLiteral, Lower(name)).Some?
    ensures FirstKeyIn(EnhancedLiteral, Lower(name)).value <= 44
    ensures FirstKeyIn(SimpleLiteral, Lower(name)).Some?
    ensures FirstKeyIn(SimpleLiteral, Lower(name)).value <= 44
  {
    EnhancedUsbIsCable();
    SimpleUsbIsDrive();
  }

  /** A name whose first keyword is 'usb' is a cable priced 20 to 150 by the enhanced generator
      and a USB drive priced 30 to 200 by the simple one. */
  lemma UsbNameCategory(name: string)
    requires Contains(Lower(name), "usb")
    requires forall j :: 0 <= j < 44 ==> !Contains(Lower(name), LeadingGroups[j].0)
    ensures var r := Categorize(EnhancedTable(), name);
            r.category == "Accessories" && r.subcategory == "Cables" && 20 <= r.price <= 150
    ensures var r := Categorize(SimpleTable(), name);
            r.category == "Storage" && r.subcategory == "USB Drives" && 30 <= r.price <= 200
  {
    EnhancedUsbIsCable();
    SimpleUsbIsDrive();
    forall j | 0 <= j < 44
      ensures !Contains(Lower(name), EnhancedLiteral[j].0) && !Contains(Lower(name), SimpleLiteral[j].0)
    {
      LiteralsShareLead(j);
    }
    FirstKeyUnique(EnhancedLiteral, Lower(name), Some(44));
    FirstKeyUnique(SimpleLiteral, Lower(name), Some(44));
    CategorizeByLiteral(EnhancedLiteral, name);
    CategorizeByLiteral(SimpleLiteral, name);
  }

  /** A name with none of the keywords gets exactly the default, in either generator. */
  lemma NoKeywordDefault(lit: seq<(string, Band)>, name: string)
    requires forall j :: 0 <= j < |lit| ==> !Contains(Lower(name), lit[j].0)
    ensures Categorize(FromLiteral(lit), name) == Classification("Electronics", "Other", 500)
  {
    FirstKeyUnique(lit, Lower(name), None);
    CategorizeByLiteral(lit, name);
  }

  // ---------------------------------------------------------------- brand

  /** `extract_brand_advanced(name)` over a brand table: the first brand with a pattern in the
      lower-cased name, otherwise the first whitespace-separated word of the name, otherwise
      "Unknown". */
  function ExtractBrand(brands: seq<(string, seq<string>)>, name: string): string {
    match FirstPatternRow(brands, Lower(name), 0)
    case Some(i) => brands[i].0
    case None => FirstWord(name).GetOr("Unknown")
  }

  /** The brand is the first brand in table order whose patterns occur in the lower-cased name. */
  lemma BrandIsFirstMatch(brands: seq<(string, seq<string>)>, name: string, i: nat)
    requires i < |brands| && AnyIn(brands[i].1, Lower(name))
    requires forall j :: 0 <= j < i ==> !AnyIn(brands[j].1, Lower(name))
    ensures ExtractBrand(brands, name) == brands[i].0
  {
    var r := FirstPatternRow(brands, Lower(name), 0);
    assert r.Some? && r.value <= i;
  }

  /** With no brand pattern in the name, the brand is the name's first whitespace-separated
      word (see `FirstWord`), or "Unknown" for a blank name. */
  lemma BrandFallback(brands: seq<(string, seq<string>)>, name: string)
    requires forall j :: 0 <= j < |brands| ==> !AnyIn(brands[j].1, Lower(name))
    ensures ExtractBrand(brands, name) == FirstWord(name).GetOr("Unknown")
    ensures AllSpace(name) ==> ExtractBrand(brands, name) == "Unknown"
    ensures !AllSpace(name) ==> ExtractBrand(brands, name) != "" && NoSpace(ExtractBrand(brands, name))
  {
    assert FirstPatternRow(brands, Lower(name), 0).None?;
  }

  /** HP and Dell are the first two rows of the brand table and appear nowhere else. */
  lemma BrandRows()
    ensures BrandPatterns[0] == ("HP", ["hp "]) && BrandPatterns[1] == ("Dell", ["dell "])
    ensures forall i :: 0 <= i < |BrandPatterns| && BrandPatterns[i].0 == "Dell" ==> i == 1
    ensures forall i :: 0 <= i < |BrandPatterns| && BrandPatterns[i].0 == "HP" ==> i == 0
  {
  }

  /** The 'Dell' and 'HP' patterns carry a trailing space: the scan picks Dell only when
      "dell " occurs, so "Dell_Inspiron" is not Dell unless its first word is exactly "Dell". */
  lemma DellNeedsTrailingSpace(name: string)
    ensures ExtractBrand(BrandPatterns, name) == "Dell" ==>
              Contains(Lower(name), "dell ") || FirstWord(name) == Some("Dell")
    ensures ExtractBrand(BrandPatterns, name) == "HP" ==>
              Contains(Lower(name), "hp ") || FirstWord(name) == Some("HP")
  {
    BrandRows();
    match FirstPatternRow(BrandPatterns, Lower(name), 0)
    case Some(i) =>
      if BrandPatterns[i].0 == "Dell" {
        assert i == 1 && AnyIn(["dell "], Lower(name));
      } else if BrandPatterns[i].0 == "HP" {
        assert i == 0 && AnyIn(["hp "], Lower(name));
      }
    case None =>
  }

  // ---------------------------------------------------------------- SKU

  /** `create_sku(category, subcategory, index)`: the first three characters of category and
      subcategory, upper-cased, then the index zero-padded to four digits, joined by '-'. */
  function Sku(category: string, subcategory: string, index: int): string {
    Upper(Take(category, 3)) + "-" + Upper(Take(subcategory, 3)) + "-" + ZFill(IntToString(index), 4)
  }

  /** The text after the SKU's last '-' is at least four digits that read back as the index. */
  lemma SkuIndexReadBack(category: string, subcategory: string, index: nat)
    ensures var tail := LastPiece(Sku(category, subcategory, index), "-");
            && AllDigits(tail) && |tail| >= 4 && DigitsValue(tail) == index
  {
    var z := ZFill(IntToString(index), 4);
    ZFillNatValue(index, 4);
    var front := Upper(Take(category, 3)) + "-" + Upper(Take(subcategory, 3));
    assert Sku(category, subcategory, index) == front + ['-'] + z;
    LastPieceAfter(front, '-', z);
  }

  /** Different indices give different SKUs, whatever the categories. */
  lemma SkuDistinct(c1: string, s1: string, i1: nat, c2: string, s2: string, i2: nat)
    requires i1 != i2
    ensures Sku(c1, s1, i1) != Sku(c2, s2, i2)
  {
    SkuIndexReadBack(c1, s1, i1);
    SkuIndexReadBack(c2, s2, i2);
  }

  /** `SkuDistinct` for texts known to be those SKUs. */
  lemma SkuValuesDistinct(x: string, y: string, c1: string, s1: string, i1: nat, c2: string, s2: string, i2: nat)
    requires x == Sku(c1, s1, i1) && y == Sku(c2, s2, i2) && i1 != i2
    ensures x != y
  {
    SkuDistinct(c1, s1, i1, c2, s2, i2);
  }

  // ---------------------------------------------------------------- feature bullets

  /** `feature_sets.get(category, feature_sets['default'])`. The tables used here always have a
      'default' entry (`FeatureSetsShape`), so the `KeyError` branch is never taken. */
  function FeatureLines(sets: seq<(string, seq<string>)>, category: string): seq<string> {
    match IndexOfKey(sets, category)
    case Some(i) => sets[i].1
    case None =>
      match IndexOfKey(sets, "default")
      case Some(d) => sets[d].1
      case None => []
  }

  /** Five one-line features in every set, and a 'default' set. */
  predicate WellShaped(sets: seq<(string, seq<string>)>) {
    && HasKey(sets, "default")
    && (forall i :: 0 <= i < |sets| ==> |sets[i].1| == 5)
    && (forall i, k :: 0 <= i < |sets| && 0 <= k < |sets[i].1| ==> '\n' !in sets[i].1[k])
  }

  /** Each feature behind the bullet. */
  function Bulleted(bullet: string, lines: seq<string>): (r: seq<string>)
    ensures |r| == |lines|
    ensures forall k :: 0 <= k < |r| ==> |r[k]| >= |bullet| && r[k][..|bullet|] == bullet
    ensures ('\n' !in bullet && forall k :: 0 <= k < |lines| ==> '\n' !in lines[k]) ==>
              forall k :: 0 <= k < |r| ==> '\n' !in r[k]
  {
    seq(|lines|, k requires 0 <= k < |lines| => bullet + lines[k])
  }

  /** `'\n'.join(f"{bullet}{feature}" for feature in features)`. */
  function KeyFeatures(sets: seq<(string, seq<string>)>, bullet: string, category: string): string {
    Join(Bulleted(bullet, FeatureLines(sets, category)), "\n")
  }

  /** Splitting the features on '\n', as the JSON export does, gives exactly five entries:
      the bullet before each feature of the category's set, or of the 'default' set for a
      category without one. */
  lemma KeyFeaturesLines(sets: seq<(string, seq<string>)>, bullet: string, category: string)
    requires WellShaped(sets) && '\n' !in bullet
    ensures var lines := SplitOn(KeyFeatures(sets, bullet, category), "\n");
            && |lines| == 5
            && lines == Bulleted(bullet, FeatureLines(sets, category))
            && (forall k :: 0 <= k < 5 ==> |lines[k]| >= |bullet| && lines[k][..|bullet|] == bullet)
            && (!HasKey(sets, category) ==>
                  lines == Bulleted(bullet, sets[IndexOfKey(sets, "default").value].1))
  {
    FeatureLinesShape(sets, category);
    SplitJoin(Bulleted(bullet, FeatureLines(sets, category)), '\n');
  }

  /** In a well-shaped table, a category's features are five one-line entries, the 'default'
      set's when the category has none. */
  lemma FeatureLinesShape(sets: seq<(string, seq<string>)>, category: string)
    requires WellShaped(sets)
    ensures var f := FeatureLines(sets, category);
            && |f| == 5 && (forall k :: 0 <= k < 5 ==> '\n' !in f[k])
            && (!HasKey(sets, category) ==> f == sets[IndexOfKey(sets, "default").value].1)
  {
  }

  // ---------------------------------------------------------------- description

  /** `generate_detailed_description(name, category, brand)` over a template table that gives,
      per category, the text before and after the product name. */
  function DetailedDescription(templates: seq<(string, (string, string))>, name: string,
                               category: string, brand: string): string {
    match IndexOfKey(templates, category)
    case Some(i) => templates[i].1.0 + name + templates[i].1.1
    case None => FallbackDescription(name, brand)
  }

  /** The description for a category without a template. */
  function FallbackDescription(name: string, brand: string): string {
    "The " + name + " from " + brand +
    " offers premium quality and reliable performance for all your technology needs."
  }

  /** The fallback sentence names the product and the brand. */
  lemma FallbackMentions(name: string, brand: string)
    ensures Contains(FallbackDescription(name, brand), name)
    ensures Contains(FallbackDescription(name, brand), brand)
  {
    ContainsParts("The ", name, " from ", brand,
                  " offers premium quality and reliable performance for all your technology needs.");
  }

  /** Every description names the product; the category's own template is used when there is
      one, and otherwise the fallback sentence, which names the brand too. */
  lemma DescriptionMentions(templates: seq<(string, (string, string))>, name: string,
                            category: string, brand: string)
    ensures Contains(DetailedDescription(templates, name, category, brand), name)
    ensures !HasKey(templates, category) ==>
              Contains(DetailedDescription(templates, name, category, brand), brand)
    ensures HasKey(templates, category) ==>
              var t := templates[IndexOfKey(templates, category).value].1;
              DetailedDescription(templates, name, category, brand) == t.0 + name + t.1
  {
    match IndexOfKey(templates, category)
    case Some(i) =>
      ContainsConcat(templates[i].1.0, name, templates[i].1.1);
    case None =>
      FallbackMentions(name, brand);
  }

  // ---------------------------------------------------------------- a catalog run

  /** The data a generator script carries: its keyword literal, brand table, description
      templates, feature sets and bullet. */
  datatype Generator = Generator(
    keywords: seq<(string, Band)>,
    brands: seq<(string, seq<string>)>,
    templates: seq<(string, (string, string))>,
    features: seq<(string, seq<string>)>,
    bullet: string)

  /** One row of the generated catalog. */
  datatype Product = Product(name: string, brand: string, category: string, subcategory: string,
                             price: int, description: string, features: string, sku: string)

  /** The loop body of `main` for the file at 1-based position `index`. */
  function DescribeProduct(g: Generator, name: string, index: nat): Product {
    var brand := ExtractBrand(g.brands, name);
    var c := Categorize(FromLiteral(g.keywords), name);
    Product(name, brand, c.category, c.subcategory, c.price,
            DetailedDescription(g.templates, name, c.category, brand),
            KeyFeatures(g.features, g.bullet, c.category),
            Sku(c.category, c.subcategory, index))
  }

  /** `for index, file in enumerate(files, 1)` over the file stems, in order. */
  function Catalog(g: Generator, stems: seq<string>): (r: seq<Product>)
    ensures |r| == |stems|
    ensures forall k :: 0 <= k < |r| ==> r[k].name == stems[k]
    ensures forall k :: 0 <= k < |r| ==> r[k].sku == Sku(r[k].category, r[k].subcategory, k + 1)
    ensures forall k :: 0 <= k < |r| ==> r[k].features == KeyFeatures(g.features, g.bullet, r[k].category)
  {
    seq(|stems|, i requires 0 <= i < |stems| => DescribeProduct(g, stems[i], i + 1))
  }

  /** Within one run the SKUs are pairwise distinct. */
  lemma CatalogSkusDistinct(g: Generator, stems: seq<string>, i: nat, j: nat)
    requires i < |stems| && j < |stems| && i != j
    ensures Catalog(g, stems)[i].sku != Catalog(g, stems)[j].sku
  {
    NumberedSkusDistinct(Catalog(g, stems), i, j);
  }

  /** Products numbered by position carry pairwise distinct SKUs. */
  lemma NumberedSkusDistinct(r: seq<Product>, i: nat, j: nat)
    requires forall k :: 0 <= k < |r| ==> r[k].sku == Sku(r[k].category, r[k].subcategory, k + 1)
    requires i < |r| && j < |r| && i != j
    ensures r[i].sku != r[j].sku
  {
    var a, b := r[i], r[j];
    assert a.sku == Sku(a.category, a.subcategory, i + 1);
    assert b.sku == Sku(b.category, b.subcategory, j + 1);
    SkuValuesDistinct(a.sku, b.sku, a.category, a.subcategory, i + 1, b.category, b.subcategory, j + 1);
  }

  /** Each product keeps its file's stem as its name, and its features split into five
      bulleted entries. */
  lemma CatalogRows(g: Generator, stems: seq<string>, i: nat)
    requires WellShaped(g.features) && '\n' !in g.bullet
    requires i < |stems|
    ensures Catalog(g, stems)[i].name == stems[i]
    ensures |SplitOn(Catalog(g, stems)[i].features, "\n")| == 5
  {
    var r := Catalog(g, stems);
    KeyFeaturesLines(g.features, g.bullet, r[i].category);
  }

  // ---------------------------------------------------------------- the image files of a run

  /** `SUPPORTED_EXTS` of both generators: the basic script's three suffixes and ".webp". */
  const ImageExtensions: set<string> := {".png", ".jpg", ".jpeg", ".webp"}

  /** The test of the comprehension that lists the image files of `IMAGE_FOLDER`. */
  predicate ImageFile(e: BasicCatalog.Entry) {
    BasicCatalog.AcceptedAmong(e, ImageExtensions)
  }

  /** The stems of the image files among `entries`, in listing order. */
  function ImageStems(entries: seq<BasicCatalog.Entry>): seq<string> {
    Map(Filter(entries, ImageFile), (e: BasicCatalog.Entry) => BasicCatalog.Stem(e.fileName))
  }

  /** `name` is the stem of some image file of the listing. */
  predicate StemOfImageFile(entries: seq<BasicCatalog.Entry>, name: string) {
    exists i :: 0 <= i < |entries| && ImageFile(entries[i]) &&
                name == BasicCatalog.Stem(entries[i].fileName)
  }

  /** Some product of `r` is named `name`. */
  predicate NamesProduct(r: seq<Product>, name: string) {
    exists k :: 0 <= k < |r| && r[k].name == name
  }

  /** `main` over a directory listing: one product per image file, numbered from 1. Every product
      is named after the stem of an image file of the listing, and every image file gives one. */
  function DirectoryCatalog(g: Generator, entries: seq<BasicCatalog.Entry>): (r: seq<Product>)
    ensures |r| <= |entries|
    ensures forall k :: 0 <= k < |r| ==> StemOfImageFile(entries, r[k].name)
    ensures forall i :: 0 <= i < |entries| && ImageFile(entries[i]) ==>
              NamesProduct(r, BasicCatalog.Stem(entries[i].fileName))
  {
    var stems := ImageStems(entries);
    var r := Catalog(g, stems);
    FilterMembers(entries, ImageFile);
    forall k | 0 <= k < |r| ensures StemOfImageFile(entries, r[k].name) {
      StemFromImageFile(entries, k);
      assert r[k].name == stems[k];
    }
    forall i | 0 <= i < |entries| && ImageFile(entries[i])
      ensures NamesProduct(r, BasicCatalog.Stem(entries[i].fileName))
    {
      ImageFileHasStem(entries, i);
      var k :| 0 <= k < |stems| && stems[k] == BasicCatalog.Stem(entries[i].fileName);
      assert r[k].name == stems[k];
    }
    r
  }

  /** Each listed stem is that of an image file of the listing. */
  lemma StemFromImageFile(entries: seq<BasicCatalog.Entry>, k: nat)
    requires k < |ImageStems(entries)|
    ensures StemOfImageFile(entries, ImageStems(entries)[k])
  {
    var files := Filter(entries, ImageFile);
    FilterMembers(entries, ImageFile);
    assert files[k] in entries;
    var i :| 0 <= i < |entries| && entries[i] == files[k];
    assert ImageStems(entries)[k] == BasicCatalog.Stem(entries[i].fileName);
  }

  /** Each image file of the listing has its stem listed. */
  lemma ImageFileHasStem(entries: seq<BasicCatalog.Entry>, i: nat)
    requires i < |entries| && ImageFile(entries[i])
    ensures exists k :: 0 <= k < |ImageStems(entries)| &&
                        ImageStems(entries)[k] == BasicCatalog.Stem(entries[i].fileName)
  {
    var files := Filter(entries, ImageFile);
    FilterMembers(entries, ImageFile);
    assert entries[i] in files;
    var k :| 0 <= k < |files| && files[k] == entries[i];
    assert ImageStems(entries)[k] == BasicCatalog.Stem(entries[i].fileName);
  }

  /** The image file at position `i` of the listing is described with the number one more than
      the count of image files before it; nothing else advances the count. */
  lemma ImageFileNumber(g: Generator, entries: seq<BasicCatalog.Entry>, i: nat)
    requires i < |entries| && ImageFile(entries[i])
    ensures var n := |Filter(entries[..i], ImageFile)|;
            n < |DirectoryCatalog(g, entries)| &&
            DirectoryCatalog(g, entries)[n] ==
              DescribeProduct(g, BasicCatalog.Stem(entries[i].fileName), n + 1)
  {
    FilterPosition(entries, ImageFile, i);
  }

  /** An entry that is not an image file, such as a directory, a ".gif" or a ".txt", leaves the
      whole catalog as if it were not listed. */
  lemma NonImageSkipped(g: Generator, a: seq<BasicCatalog.Entry>, e: BasicCatalog.Entry,
                        b: seq<BasicCatalog.Entry>)
    requires !ImageFile(e)
    ensures DirectoryCatalog(g, a + [e] + b) == DirectoryCatalog(g, a + b)
  {
    FilterSkips(a, e, b, ImageFile);
  }

  /** Suffixes are compared in lower case: "S21.PNG" is an image file. */
  lemma UpperCaseSuffixAccepted()
    ensures ImageFile(BasicCatalog.Entry("S21.PNG", true))
  {
    BasicCatalog.SuffixAfterLastDot("S21", "PNG");
    assert "S21" + "." + "PNG" == "S21.PNG";
    LowerDotExtension(".PNG", ".png");
  }

  /** ".webp" is an image here though the basic script skips it. */
  lemma WebpAccepted()
    ensures ImageFile(BasicCatalog.Entry("Pixel.webp", true))
    ensures !BasicCatalog.Accepted(BasicCatalog.Entry("Pixel.webp", true))
  {
    BasicCatalog.SuffixAfterLastDot("Pixel", "webp");
    assert "Pixel" + "." + "webp" == "Pixel.webp";
    LowerDotExtension(".webp", ".webp");
  }

  /** A directory named like an image, and a file with another suffix, are skipped. */
  lemma NonImagesSkipped()
    ensures !ImageFile(BasicCatalog.Entry("pics.png", false))
    ensures !ImageFile(BasicCatalog.Entry("notes.txt", true))
  {
    BasicCatalog.SuffixAfterLastDot("notes", "txt");
    assert "notes" + "." + "txt" == "notes.txt";
    LowerDotExtension(".txt", ".txt");
    assert ".txt"[1] != ".png"[1] && ".txt"[1] != ".jpg"[1] && ".txt"[1] != ".jpeg"[1];
    assert ".txt"[1] != ".webp"[1];
  }

  lemma LowerDotExtension(s: string, t: string)
    requires |s| == |t| && forall i :: 0 <= i < |s| ==> LowerChar(s[i]) == t[i]
    ensures Lower(s) == t
  {
  }
}