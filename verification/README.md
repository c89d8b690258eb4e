# Shopdydy catalog and scrapers, modelled in Dafny

This project models the Python scripts of the Shopdydy.com product catalog. There are three
families.

- **Catalog generators.** `product_catalog.py`, `enhanced_product_catalog.py` and
  `simple_catalog.py` turn image file names into catalog rows. Each row gets a brand, a category
  and subcategory, an estimated price in cedis, a description, a features text and a SKU.
- **Web catalog and table builder.** From `web_catalog.py`: the upload-name check, the SQL query
  the catalog page builds from its request arguments and their defaults, and the split of a features text into lines. From
  `shopdydy-github-package/enhanced_product_table.py`: the product-name enhancer and the
  price-tier summary.
- **Scrapers.** Four scrapers read products from HTML pages:
  - `simple_shopdydy_scraper.py`: the home page;
  - `shopdydy_scraper.py`: product pages and a listing page;
  - `final_shopdydy_scraper.py` (an identical copy sits under `shopdydy-github-package/`):
    category pages;
  - `comprehensive_shopdydy_scraper.py`: four strategies per page.

  All of them share one price-text normaliser, `clean_price` / `extract_price`. Only two
  scrapers drop duplicates at the end, and their keys differ:
  - `final_shopdydy_scraper.py` keys on the lower-cased, stripped name and the price;
  - `comprehensive_shopdydy_scraper.py` keys on the lower-cased name, unstripped, and the price.

  The simple and listing scrapers keep every product they find.

## How the model is built

The model is pure functions over immutable data.

**Modules**
- `Wrappers`: `Option`.
- `Text`: Python string operations, such as `lower`, `title`, `strip`, `split`, `str.split()[0]`, `zfill` and `in`.
- `OrderedTable`: Python dict literals, where a repeated key keeps its first position and takes its last value, and the first-match scan over `.items()`.
- `PriceText`: `clean_price`, with `float()` read as an exact decimal.
- `PriceFormat`: the report display `f"{x:,.2f}"`.
- `PricePatterns`: the fixed regular expressions, written out by hand.
- `Dom`: what the scrapers read from a parsed page.
- `Dedup`: the final duplicate filter.
- `Filtering`: the list comprehension `[x for x in xs if keep(x)]` and the loop that appends a result only when one was found, with their membership facts, the position of a kept element and their distribution over concatenation. The directory filter of the catalog generators and the scrapers' keep filters are both this comprehension.
- `JsonValue`: the decoded JSON-LD values.
- One module per script.

**HTML and I/O.** The HTML parser and the CSS selector engine are not modelled. Instead, a
`Dom.Element` records what each selector finds in an element, and a `Dom.Document` records what
`soup.select` finds. Fetching a page is a function parameter (`fetch`). So is `urljoin`, held as
`Dom.Site`.

## Model

| member | source | states |
|---|---|---|
| BasicCatalog.ExtractBrand | product_catalog.py:18-20 | the brand is the first whitespace-separated word of the name, found right after the leading whitespace and ended by whitespace or the end; "Unknown" exactly for a blank name |
| BasicCatalog.GuessCategoryByRules | product_catalog.py:22-33 | the category is that of the first rule, in order laptop, smartphone, storage, wearables, with a keyword in the lower-cased name, else "Electronics"; a laptop is "Professional" iff "pro" occurs |
| BasicCatalog.FeaturesAreFourLines | product_catalog.py:41-42 | the features text splits on '\n' into the same four bulleted lines whatever the name |
| BasicCatalog.SkuIndexReadBack | product_catalog.py:44-46 | the text after the SKU's last '-' is at least four digits that read back as the index |
| BasicCatalog.LastIndexOf | product_catalog.py:65-68 | the position of the last occurrence of a character, none exactly when it does not occur (the basis of `suffix` and `stem`) |
| BasicCatalog.Stem | product_catalog.py:65-68 | stem followed by suffix gives the file name back |
| BasicCatalog.NumberedInOrder | product_catalog.py:62-74 | the counter values given to accepted files are 1, 2, 3, ... in file order, and skipped entries get none |
| BasicCatalog.RowsSkusDistinct | product_catalog.py:44-46 | no two rows of one run share a SKU |
| BasicCatalog.RowsAreAcceptedInOrder | product_catalog.py:62-74 | row k is built from the k-th accepted file with number k + 1 |
| BasicCatalog.ProcessFiles | product_catalog.py:59-84 | the loop yields one row per accepted file, `processed_count` ends at the number of rows, and the SKUs are pairwise distinct |
| Classifier.Scale | enhanced_product_catalog.py:239-257 | `int(b * f)` truncates the exact product toward zero |
| Classifier.Clamp | enhanced_product_catalog.py:259-260 | `max(lo, min(hi, x))` lies in a non-empty band, is x when x is in the band, and is lo for an inverted band |
| Classifier.EstimatePrice | enhanced_product_catalog.py:227-260 | the estimate always lies inside a non-empty band |
| Classifier.PlainNameAtMidpoint | enhanced_product_catalog.py:235-257 | a name without tier keywords and without 'tb' or 'gb' is priced at the floored midpoint |
| Classifier.PremiumHidesBudget | enhanced_product_catalog.py:237-241 | once a premium keyword occurs, the budget keywords make no difference |
| Classifier.ProjectorIsPremium | enhanced_product_catalog.py:232-239 | keyword matching is by substring, so "projector" triggers the premium factor through "pro" |
| Classifier.TerabyteShadowsGigabyte | enhanced_product_catalog.py:244-257 | any 'tb' selects the terabyte branch and shuts out the gigabyte rules, even with no 4tb, 2tb or 1tb |
| Classifier.LargerSizeFirst | enhanced_product_catalog.py:243-256 | the factor of each capacity step, larger first: 4tb 2.5; else 2tb 1.8; else 1tb 1.3; with no "tb", 512gb or 256gb 1.2; else 128gb 1.1; else 32gb or 16gb 0.9 |
| Classifier.LargerTerabyteFirst | enhanced_product_catalog.py:244-249 | the terabyte steps: 4tb gives 2.5, 2tb without 4tb 1.8, 1tb without either 1.3 |
| Classifier.LargerGigabyteFirst | enhanced_product_catalog.py:250-256 | for a name without "tb", the gigabyte steps: 512gb or 256gb gives 1.2, else 128gb 1.1, else 32gb or 16gb 0.9 |
| Classifier.TierSteps | enhanced_product_catalog.py:237-241 | for any name: a premium keyword in the lower-cased name gives the factor 1.3; a budget keyword without a premium one gives 0.8; neither leaves the midpoint unscaled |
| Classifier.TierOrder | enhanced_product_catalog.py:235-260 | with a non-negative band and the same capacity step, a budget name is estimated no higher than a name without tier keywords, and that one no higher than a premium name, both before and after clamping |
| Classifier.Categorize | enhanced_product_catalog.py:213-225 | the first table keyword in the lower-cased name decides category and subcategory, and the price lies in its band; with no keyword, exactly ("Electronics", "Other", 500) |
| Classifier.CategorizeByLiteral | enhanced_product_catalog.py:28-156 | categorising with the dict the literal evaluates to uses the literal's first matching keyword and the last value the literal gives that keyword |
| Classifier.LiteralBandsOrdered | enhanced_product_catalog.py:28-156 | every band written in either generator's table has min at or below max |
| Classifier.EnhancedUsbIsCable | enhanced_product_catalog.py:84-101 | the enhanced literal writes 'usb' twice: the dict keeps the first position, just before 'sandisk', with the second value, the cables band 20 to 150 |
| Classifier.SimpleUsbIsDrive | simple_catalog.py:80-81 | the simple literal writes 'usb' once, as a storage keyword with band 30 to 200, just before 'sandisk' |
| Classifier.VgaOnlyInEnhanced | enhanced_product_catalog.py:102 | 'vga' is a keyword of the enhanced table and not of the simple one |
| Classifier.LaptopBand | enhanced_product_catalog.py:30 | 'laptop' is the first keyword of both literals, written once, with the band 15000 to 30000 |
| Classifier.CategorizedPriceInBand | enhanced_product_catalog.py:213-222 | with ordered bands, a classified name's price lies in the band of the keyword that classified it |
| Classifier.LaptopComesFirst | enhanced_product_catalog.py:213-222 | a name containing "laptop" is a laptop in the laptop band in both generators, whatever brand words it carries |
| Classifier.UsbBeforeSandisk | enhanced_product_catalog.py:84-85 | a name containing "usb" is matched at the 'usb' entry or earlier, never at 'sandisk' or after |
| Classifier.UsbNameCategory | simple_catalog.py:207-219 | a name whose first keyword is 'usb' is a cable priced 20 to 150 by the enhanced generator and a USB drive priced 30 to 200 by the simple one |
| Classifier.NoKeywordDefault | enhanced_product_catalog.py:224-225 | a name with no keyword gets exactly the default classification |
| Classifier.BrandIsFirstMatch | enhanced_product_catalog.py:205-207 | the brand is the first brand, in table order, whose patterns occur in the lower-cased name |
| Classifier.BrandFallback | enhanced_product_catalog.py:209-211 | with no pattern matching, the brand is the first word: non-empty and without whitespace, or "Unknown" for a blank name |
| Classifier.DellNeedsTrailingSpace | enhanced_product_catalog.py:164-165 | "Dell" and "HP" come only from "dell " and "hp " with the trailing space, or from a first word that is exactly the brand |
| Classifier.SkuIndexReadBack | enhanced_product_catalog.py:336-340 | the text after the SKU's last '-' reads back as the index |
| Classifier.SkuDistinct | enhanced_product_catalog.py:336-340 | different indices give different SKUs, whatever the categories |
| Classifier.KeyFeaturesLines | enhanced_product_catalog.py:279-334 | the features text splits on '\n' into exactly five entries, each the bullet and a feature, using the 'default' set for a category without its own |
| Classifier.FallbackMentions | enhanced_product_catalog.py:277 | the fallback description names both the product and the brand |
| Classifier.DescriptionMentions | enhanced_product_catalog.py:262-277 | every description names the product; the category's template is used when there is one, otherwise the fallback, which names the brand |
| Classifier.Catalog | enhanced_product_catalog.py:410-418 | product k keeps the k-th stem as its name, its SKU carries number k + 1, and its features are its category's |
| Classifier.CatalogSkusDistinct | enhanced_product_catalog.py:410-418 | within one run the SKUs are pairwise distinct |
| Classifier.CatalogRows | simple_catalog.py:424 | each product's features split, as the JSON export splits them, into five entries |
| Classifier.DirectoryCatalog | enhanced_product_catalog.py:402-411 | the run lists one product per image file of the directory listing: every product is named after the stem of a regular file whose lower-cased suffix is one of the four supported ones, and every such file names one |
| Classifier.ImageFileNumber | simple_catalog.py:449-458 | an image file is described with the number one more than the count of image files before it in the listing |
| Classifier.NonImageSkipped | simple_catalog.py:449-452 | an entry that is not an image file leaves the whole catalog as if it were not listed, so it takes no number |
| Classifier.UpperCaseSuffixAccepted | enhanced_product_catalog.py:404 | the suffix is compared in lower case, so "S21.PNG" is an image file |
| Classifier.WebpAccepted | enhanced_product_catalog.py:25 | ".webp" is a supported suffix of the generators, though the basic script skips it |
| Classifier.NonImagesSkipped | simple_catalog.py:451 | a directory named like an image, and a ".txt" file, are not image files |
| Generators.FeatureSetsShape | enhanced_product_catalog.py:281-331 | every feature set has five one-line features, and a 'default' set exists |
| Generators.SimpleFeaturesBulleted | simple_catalog.py:327-328 | the simple generator's features, for any category, are five entries each starting with "• " |
| Generators.GeneratorsWellShaped | simple_catalog.py:273-328 | all three generators meet the shape `CatalogRows` needs |
| Generators.EnhancedBulletIsMisdecoded | enhanced_product_catalog.py:334 | the enhanced bullet is U+2022's UTF-8 bytes read as Windows-1252, and differs from the simple bullet |
| Generators.EnhancedFeaturesAsWritten | enhanced_product_catalog.py:333-334 | as written, each enhanced feature entry starts with the three mis-decoded characters, never with U+2022 |
| NameEnhancer.NameFromImageUrl | shopdydy-github-package/enhanced_product_table.py:44-77 | "Unknown Product" for an empty URL; otherwise the name of the first branch with a keyword in the lower-cased URL, or "Electronics Product" when none has |
| NameEnhancer.LaptopUrlFirst | shopdydy-github-package/enhanced_product_table.py:52-53 | a URL that names a laptop gives "Laptop Computer", whatever else it names |
| NameEnhancer.TierName | shopdydy-github-package/enhanced_product_table.py:88-186 | the name of the first price step whose threshold the price strictly exceeds, else the last name |
| NameEnhancer.EnhancedName | shopdydy-github-package/enhanced_product_table.py:83-190 | the first category branch with a keyword decides, split by price; the image URL decides only when no branch matches |
| NameEnhancer.PhoneTiers | shopdydy-github-package/enhanced_product_table.py:89-95 | a phone category gets thresholds 2000 and 1000, both strict |
| NameEnhancer.ComputingTiers | shopdydy-github-package/enhanced_product_table.py:97-105 | a computing category that is not a phone category gets strict thresholds 5000, 2000 and 1000 |
| NameEnhancer.UrlIgnoredWhenCategoryMatches | shopdydy-github-package/enhanced_product_table.py:88-186 | when a branch matches, the image URL plays no part |
| NameEnhancer.UrlDecidesOtherwise | shopdydy-github-package/enhanced_product_table.py:188-190 | when no branch matches, the price plays no part |
| NameEnhancer.EnhanceNames | shopdydy-github-package/enhanced_product_table.py:79-194 | the table keeps its length and every column except the name, which becomes the row's enhanced name |
| NameEnhancer.EnhanceNamesIdempotent | shopdydy-github-package/enhanced_product_table.py:79-194 | enhancing twice is enhancing once |
| NameEnhancer.TierOf | shopdydy-github-package/enhanced_product_table.py:266-270 | budget iff at most 100, mid-range iff above 100 up to 1000, premium iff above 1000 |
| NameEnhancer.TiersPartition | shopdydy-github-package/enhanced_product_table.py:268-274 | the three tier counts add up to the number of prices |
| WebCatalog.AllowedFileIff | web_catalog.py:35-37 | a name is allowed iff some '.' is followed by a dot-free text that is an allowed extension in any letter case |
| WebCatalog.AddFilter | web_catalog.py:71-81 | an empty filter adds nothing; a non-empty one appends its clause and values, and placeholders stay matched with values |
| WebCatalog.Filtered | web_catalog.py:68-81 | the filtered query has exactly one value per '?' placeholder |
| WebCatalog.BuildQuery | web_catalog.py:67-88 | the full query has exactly one value per '?' placeholder |
| WebCatalog.QueryParams | web_catalog.py:69-81 | values are bound in the order category, brand, search; an empty filter binds none; a search binds its LIKE pattern twice |
| WebCatalog.SqlIgnoresFilterValues | web_catalog.py:67-88 | the SQL text depends on the filters only through whether each is empty, so no filter value enters the SQL |
| WebCatalog.SortWhitelisted | web_catalog.py:83-88 | a column outside the whitelist leaves the SQL as with an empty sort column, without ORDER BY; a whitelisted one appends ORDER BY, with DESC only for "desc" |
| WebCatalog.IndexQuery | web_catalog.py:61-88 | for a request that may leave out any argument, the query has one value per placeholder, and with no filter argument it binds no value |
| WebCatalog.DefaultSortByName | web_catalog.py:64-88 | a request without `sort` is sorted by name, descending exactly when `order` is "desc" |
| WebCatalog.AbsentFilterIsEmpty | web_catalog.py:61-63 | an absent category, brand or search argument gives the same query as an empty one |
| WebCatalog.BarePageQuery | web_catalog.py:61-88 | a request with no arguments selects every product ordered by name, ascending, with no values bound |
| WebCatalog.FeaturesList | web_catalog.py:128 | an empty features text, and only that, gives no lines |
| WebCatalog.FeaturesListJoin | web_catalog.py:128 | the lines join back with '\n' into the stored features text |
| PriceText.KeepPriceChars | comprehensive_shopdydy_scraper.py:58 | the filter keeps only digits, dots and commas, and never lengthens the text |
| PriceText.KeepPriceCharsFrom | comprehensive_shopdydy_scraper.py:58 | every kept character is a price character of the input |
| PriceText.ParseAcceptsNumerals | comprehensive_shopdydy_scraper.py:71-74 | `float()` of a digits-and-dots text succeeds iff the text has a digit and at most one dot |
| PriceText.CleanPrice | comprehensive_shopdydy_scraper.py:52-74 | an empty text gives None, any price read comes from a text with a digit in it, and no price is negative (a minus sign is filtered out) |
| PriceText.NoiseIgnored | shopdydy_scraper.py:133-134 | currency signs, letters and spaces never change the result |
| PriceText.CommaDecimal | simple_shopdydy_scraper.py:51-64 | digits, one comma and exactly two digits read as the whole part plus the two digits as hundredths ("12,50" is 12.5, ",99" is 0.99) |
| PriceFormat.GroupedIntegerReads | simple_shopdydy_scraper.py:51-64 | a comma-grouped integer without a dot reads as that integer ("1,234,567" is 1234567): its last group has three digits, so every comma is a thousands separator |
| PriceText.CommaGroupsRejected | simple_shopdydy_scraper.py:57-66 | with two commas or more, no dot and a two-character last group, every comma becomes a point and no price is read ("12,34,56" gives None) |
| PriceFormat.DisplayedDecimal | final_shopdydy_scraper.py:51-56 | with both separators the commas are dropped: a comma-grouped whole part, a dot and a fraction read as all their digits scaled by the fraction's length ("1,234.50" is 123450 hundredths) |
| PriceFormat.UngroupThousands | final_shopdydy_scraper.py:269 | dropping the commas undoes the thousands grouping of the display format |
| PriceFormat.CleanPriceReadsDisplayedPrice | final_shopdydy_scraper.py:269 | the normaliser reads a price displayed as `symbol + f"{x:,.2f}"` back as exactly the displayed cents, for any symbol without digits, dots or commas |
| PriceFormat.CleanPriceReadsDisplayedAmount | web_catalog.py:177 | the displayed price reads back as the amount shown, as a number of hundredths |
| PricePatterns.DigitsEnd | final_shopdydy_scraper.py:133 | `\d+` is greedy: the run covers digits only and stops before a non-digit |
| PricePatterns.Amounts | comprehensive_shopdydy_scraper.py:363 | every amount `re.findall` captures is digits with an optional dot and exactly two decimals |
| PricePatterns.AmountParses | comprehensive_shopdydy_scraper.py:363-367 | every captured amount reads as a price |
| PricePatterns.FirstCediAmount | final_shopdydy_scraper.py:133-135 | there is no amount iff no '₵' is followed by a digit; a found amount starts with a digit |
| PricePatterns.RemovePriceMarks | final_shopdydy_scraper.py:113 | removing marks never lengthens the text |
| PricePatterns.LeadingMarkDropped | final_shopdydy_scraper.py:113 | a leading "₵", "$" or "GHS" plus spaces, with the whole digit run after it, is removed and the rest is handled alike |
| PricePatterns.PlainPrefixKept | final_shopdydy_scraper.py:113 | a prefix at none of whose positions a mark `₵\d+`, `GHS\s*\d+` or `\$\d+` starts is kept unchanged in front of the handled rest |
| PricePatterns.PlainTextPrefixKept | final_shopdydy_scraper.py:113 | in particular, a prefix without '₵', '$' or 'G' is kept unchanged in front of the handled rest |
| PricePatterns.SpacedDollarKept | final_shopdydy_scraper.py:113 | a '$' not directly followed by a digit is no mark: "Galaxy $ 5" is left as it is |
| PricePatterns.NoMarksKept | final_shopdydy_scraper.py:113 | a text without '₵', '$' or "GHS" is left as it is |
| Dom.SelectOneOf | final_shopdydy_scraper.py:126 | a comma selector finds nothing iff no part does; otherwise it finds the earliest element, in document order, that any part matches |
| Dom.FirstSelected | shopdydy_scraper.py:241-245 | the selector loop stops at the first selector, in list order, whose element passes the test |
| Dom.FirstNode | final_shopdydy_scraper.py:168-174 | a node is found iff some selector's element passes, and it is the first such selector's element |
| Dom.FirstPrice | shopdydy_scraper.py:260-267 | the first selector whose element reads as a non-zero price gives the price; a cleaned 0 counts as not found |
| Dom.Shorten | final_shopdydy_scraper.py:190 | a text over n characters becomes its first n characters and "..."; a shorter one is kept |
| Dom.FirstMatching | shopdydy_scraper.py:401-411 | the scan stops at the first selector that matches any element; none iff no selector matches |
| Dedup.KeepFirstKeys | final_shopdydy_scraper.py:243-252 | the kept records have exactly the keys of all records, each key once |
| Dedup.KeptAreFirsts | final_shopdydy_scraper.py:243-252 | the kept records are, in discovery order, exactly the first record of each key |
| Dedup.Deduplicate | comprehensive_shopdydy_scraper.py:431-438 | the `seen`-set loop computes that filter: pairwise distinct keys, and the same key set as the input |
| JsonValue.Get | comprehensive_shopdydy_scraper.py:217-230 | `obj.get(k)` finds nothing iff no member is named k, and otherwise returns a value of a member named k |
| CategoryScraper.Link | final_shopdydy_scraper.py:99-103 | the item's first link is used only when its `href` is non-empty |
| CategoryScraper.LinkName | final_shopdydy_scraper.py:105-115 | a non-empty link title wins; otherwise the link text with price marks removed, when longer than 2 characters; else "Unknown Product" |
| CategoryScraper.ItemName | final_shopdydy_scraper.py:117-123 | an `alt` longer than 2 characters replaces an unknown name or one shorter than 3; a name under 3 characters can only be a short title on an item without such an `alt` |
| CategoryScraper.ItemPrice | final_shopdydy_scraper.py:125-135 | a present price element alone decides, even when it reads as no price; only without one is the first '₵' amount of the item's text read |
| CategoryScraper.PriceElementDecides | final_shopdydy_scraper.py:126-129 | two items with the same price element get the same price, whatever their text |
| CategoryScraper.NoCediNoPrice | final_shopdydy_scraper.py:130-135 | no price element and no '₵' followed by a digit gives no price |
| CategoryScraper.CategoryOf | final_shopdydy_scraper.py:144-147 | a URL without "/category/" gives no category |
| CategoryScraper.CategoryHasNoSlashOrHyphen | final_shopdydy_scraper.py:146-147 | a category never contains '/' or '-' |
| CategoryScraper.ItemProduct | final_shopdydy_scraper.py:87-149 | the product URL is the resolved `href` when there is one, else the page URL; the name, price, image and category are the item's own readings and the category of the page URL; the description starts empty |
| CategoryScraper.ProductDetails | final_shopdydy_scraper.py:151-193 | nothing for an unfetched page; a name is found iff some name selector has a text longer than 3, and it is the first such text; a description is found iff some description selector has a text longer than 10, and it is the first such text shortened to 300 characters plus "...", so at most 303 |
| CategoryScraper.Update | final_shopdydy_scraper.py:213 | `update` overrides only the fields the details carry |
| CategoryScraper.Completed | final_shopdydy_scraper.py:208-213 | price, product URL and category are never changed; an item that names itself, or links to its own page, is left as read; an unnamed item linking elsewhere takes the name and description its product page gives, keeping "Unknown Product" and "" for what the page lacks |
| CategoryScraper.KeepPriced | final_shopdydy_scraper.py:215-216 | exactly the products with a price are kept |
| CategoryScraper.ScrapeCategory | final_shopdydy_scraper.py:195-219 | every product returned has a price; an unfetched page gives none; otherwise the result is the completed `.item` elements, in order, with the unpriced ones dropped |
| CategoryScraper.ScrapeCategoryItems | final_shopdydy_scraper.py:205-217 | every item with a price is returned, completed, and every product returned is the completion of some item |
| CategoryScraper.KeepPricedConcat | final_shopdydy_scraper.py:215-216 | the price filter works item by item: filtering a concatenation concatenates the filtered parts, so order is kept |
| CategoryScraper.NamedPricedItemKept | final_shopdydy_scraper.py:207-216 | a priced item that names itself is returned exactly as read from the item |
| CategoryScraper.CategoryLinks | final_shopdydy_scraper.py:77-83 | a URL is listed iff it resolves an `href` that contains "/category/" |
| CategoryScraper.CategoriesFound | final_shopdydy_scraper.py:68-85 | the category URLs are distinct, and a URL is among them iff it resolves such an `href` |
| CategoryScraper.ScrapeAllProducts | final_shopdydy_scraper.py:221-254 | the run keeps the first product of each (lower-cased stripped name, price) key over all categories in order; keys are pairwise distinct and every product has a price |
| ListingScraper.PageDescription | shopdydy_scraper.py:288-303 | the first description over 20 characters, cut to 500 characters with no ellipsis |
| ListingScraper.PageImage | shopdydy_scraper.py:305-320 | the resolved `src` or `data-src` of the first image selector whose element has one |
| ListingScraper.ProductInfo | shopdydy_scraper.py:212-337 | the URL is kept; a name is found iff some name selector has non-empty text, and it is the first such text; price and original price are found independently, each iff some selector of its own list reads as non-zero, and each is the first such reading; the description and image are the page's; an availability is found iff some availability element exists, even an empty one, and it is the first one's text |
| ListingScraper.PageName | shopdydy_scraper.py:241-245 | a name is found iff some name selector's element has non-empty stripped text, and it is the first such text |
| ListingScraper.PageAvailability | shopdydy_scraper.py:331-335 | an availability is found iff some availability selector finds an element, even one without text, and it is the first such element's stripped text |
| ListingScraper.Resolved | shopdydy_scraper.py:442-454 | a link or image is resolved iff the element exists with a non-empty attribute, and it is then that attribute joined to the base URL |
| ListingScraper.ElementProduct | shopdydy_scraper.py:415-456 | the name comes from the earliest name element, else from `a[title]`, using its text or else its title; the price is present iff the price element reads as non-zero, and is that reading; the URL is the resolved `href` of the first anchor and the image the resolved `src` or `data-src` of the first image |
| ListingScraper.KeptProducts | shopdydy_scraper.py:406-409 | every element whose product has a name or a non-zero price contributes that product, and every product returned is some element's product with a name or a price |
| ListingScraper.KeptProductsEmpty | shopdydy_scraper.py:406-409 | nothing is kept iff no element gives a product with a name or a non-zero price |
| ListingScraper.KeptProductsConcat | shopdydy_scraper.py:406-409 | elements are handled one by one in order: the products of concatenated element lists are the concatenated products |
| ListingScraper.ListingProducts | shopdydy_scraper.py:385-413 | the kept products of the first selector that matches, even when none is kept; nothing when no selector matches |
| ListingScraper.ListingStopsAtFirstMatch | shopdydy_scraper.py:401-411 | a first-matching selector with nothing kept gives no products, whatever later selectors hold |
| ListingScraper.SliceTo | shopdydy_scraper.py:365 | a Python slice `[:m]` is a prefix, and a negative m counts from the end |
| ListingScraper.Limit | shopdydy_scraper.py:363-366 | no bound or a bound of 0 leaves the list; a positive bound keeps min(bound, length) URLs, as a prefix |
| ListingScraper.UrlProduct | shopdydy_scraper.py:372-376 | a URL gives a product iff its page was fetched and the product has a name or a price; the product keeps that URL |
| ListingScraper.UrlProducts | shopdydy_scraper.py:368-377 | every collected product is kept and comes from one of the URLs, and every URL whose page gives a useful product contributes it |
| ListingScraper.UrlProductsConcat | shopdydy_scraper.py:368-377 | the URLs are handled one by one in order: the products of a concatenation of URL lists are the concatenated products |
| ListingScraper.UrlProductsSnoc | shopdydy_scraper.py:369-377 | one more URL appends its page's product when that product is useful, and nothing otherwise |
| ListingScraper.ScrapeProducts | shopdydy_scraper.py:339-383 | nothing for an unfetched base page; listing products only when no URL was discovered; at most `max_products` page products, each from a discovered URL |
| HomepageScraper.Description | simple_shopdydy_scraper.py:147-152 | non-empty iff the description element's text is longer than 10; cut to 200 characters and "..." |
| HomepageScraper.ExtractProduct | simple_shopdydy_scraper.py:108-168 | the name is found iff some name selector has text, and is the first one's; each price is present iff some selector of its list reads as non-zero, and is the first such reading; the image is the first non-empty image attribute resolved against the base URL, or ""; a non-empty link `href` is resolved against the base URL, and no link or an empty one leaves the URL empty |
| HomepageScraper.Extracted | simple_shopdydy_scraper.py:98-99 | the extracted products never carry a price of 0 |
| HomepageScraper.Keep | simple_shopdydy_scraper.py:100-101 | exactly the products with a name or a non-zero price are kept, each taken from the input; none iff no product has one |
| HomepageScraper.KeepConcat | simple_shopdydy_scraper.py:98-101 | products are handled one by one in order: the kept products of a concatenation are the concatenated kept products |
| HomepageScraper.KeptProducts | simple_shopdydy_scraper.py:98-101 | every element whose product has a name or a non-zero price contributes that product, every product returned is some element's, and none has a price of 0 |
| HomepageScraper.KeptProductsConcat | simple_shopdydy_scraper.py:98-101 | the products of concatenated element lists are the concatenated products |
| HomepageScraper.Alternative | simple_shopdydy_scraper.py:170-194 | no price-like text gives exactly the placeholder; otherwise every one of the first ten parents whose product has a name or a price contributes it, and nothing else is returned, so at most 10 |
| HomepageScraper.ScrapeHomepage | simple_shopdydy_scraper.py:69-106 | nothing for an unfetched page; the first matching selector decides, even with nothing kept; the alternative runs only when no selector matches |
| HomepageScraper.PlaceholderOnlyAsLastResort | simple_shopdydy_scraper.py:184-194 | the placeholder appears iff no selector matches and no text looks like a price, and then it is the only record |
| ComprehensiveScraper.ElementName | comprehensive_shopdydy_scraper.py:347-359 | the first name selector with text gives the name; only when none has, the image's `alt`, or else its `title` |
| ComprehensiveScraper.FirstTruthy | comprehensive_shopdydy_scraper.py:364-370 | the first captured amount that reads as a non-zero price; none iff no amount does |
| ComprehensiveScraper.ElementPrice | comprehensive_shopdydy_scraper.py:361-381 | a non-zero amount from the text wins; only without one do the price selectors decide |
| ComprehensiveScraper.ElementDescription | comprehensive_shopdydy_scraper.py:383-388 | non-empty iff the description text is longer than 20; cut to 300 characters and "..." |
| ComprehensiveScraper.ExtractProduct | comprehensive_shopdydy_scraper.py:330-404 | the product URL is the resolved `href`, else the page URL; name, price, description and image are the element's own readings; original price, brand, SKU and availability stay empty |
| ComprehensiveScraper.ClassKeywordMakesContainer | comprehensive_shopdydy_scraper.py:317-322 | one class holding a product keyword makes a container, whatever the text |
| ComprehensiveScraper.TextLengthOutsideRange | comprehensive_shopdydy_scraper.py:325-328 | a text of at most 10 or at least 500 characters leaves the decision to the class names |
| ComprehensiveScraper.KeepUseful | comprehensive_shopdydy_scraper.py:176-179 | exactly the products with a name or a non-zero price are kept |
| ComprehensiveScraper.ContainerProducts | comprehensive_shopdydy_scraper.py:160-184 | the useful products of the first selector that yields any; a selector yielding none does not stop the scan |
| ComprehensiveScraper.ParseItem | comprehensive_shopdydy_scraper.py:212-247 | an item is read iff it is a product-typed object whose offers, when a non-empty list, start with an object; the record keeps the page URL, the name, description, SKU and availability, the brand's `name` when the brand is an object and the brand itself otherwise, the first offer's price, and the image when it is a string or the first image of a non-empty list, else "" |
| ComprehensiveScraper.ParseItemAgrees | comprehensive_shopdydy_scraper.py:212-247 | wherever the source's reader returns, the corrected one returns the same; where it raises, the corrected one skips the item |
| ComprehensiveScraper.StructuredAgrees | comprehensive_shopdydy_scraper.py:186-210 | whenever the source's structured-data strategy returns, it returns what the corrected one does |
| ComprehensiveScraper.ListTypedItemRaises | comprehensive_shopdydy_scraper.py:217 | an item typed `["Product"]` makes the source raise, while the corrected strategy skips it |
| ComprehensiveScraper.Collect | comprehensive_shopdydy_scraper.py:282-283 | each present candidate once: no duplicates, and a product is listed iff some candidate is that product |
| ComprehensiveScraper.ContainerAbove | comprehensive_shopdydy_scraper.py:273-286 | the first container among the price text's parent and next four ancestors |
| ComprehensiveScraper.PriceAnchoredFound | comprehensive_shopdydy_scraper.py:249-288 | products are distinct, and a product is found iff one of the first 20 price texts has it as its first container above |
| ComprehensiveScraper.ImageProductsFound | comprehensive_shopdydy_scraper.py:290-310 | products are distinct, and a product is found iff it is read from an image's parent whose text has a price mark |
| ComprehensiveScraper.FirstNonEmpty | comprehensive_shopdydy_scraper.py:151-156 | the first non-empty list; empty iff all are |
| ComprehensiveScraper.PageProducts | comprehensive_shopdydy_scraper.py:139-158 | the products of the first strategy that finds any; none iff all four find none |
| ComprehensiveScraper.ContainersWin | comprehensive_shopdydy_scraper.py:144-156 | when containers yield products, the other strategies are not consulted |
| ComprehensiveScraper.ScrapeAllProducts | comprehensive_shopdydy_scraper.py:406-442 | the run keeps the first product of each (lower-cased name, price) key over all pages in order; keys are pairwise distinct and cover all keys found |
| OrderedTable.DictFirstMatch | enhanced_product_catalog.py:218-222 | scanning the evaluated dict matches iff scanning the literal does; the key is the literal's first match, with its last written value |
| OrderedTable.FromLiteralDistinct | enhanced_product_catalog.py:163-203 | a literal with no repeated key evaluates to itself |
| OrderedTable.LastValueAppend | enhanced_product_catalog.py:28-156 | a key takes its last value from the later part of the literal whenever that part writes it |
| Text.FirstWord | product_catalog.py:19-20 | `split()[0]` is None iff the text is blank; otherwise the first maximal non-whitespace run after the leading whitespace |
| Text.SplitJoin | simple_catalog.py:424 | splitting a '\n'-joined text of one-line entries gives the entries back |
| Text.JoinSplit | web_catalog.py:128 | joining the pieces of a split gives the text back |

## Left out

**Outside the model**
- Network fetching, `requests` sessions, Selenium, `time.sleep` and logging. A fetch is a
  function parameter, and an unfetched page is `None`.
- Page discovery (`find_all_pages`, `discover_product_pages`). Its `list(set(...))` order is
  unspecified, so the discovered URLs and pages are inputs.
- The HTML parser and the CSS selector engine. What `select_one`, `select` and `find_all` find is
  an input (`Dom.Element`, `Dom.Document`, the `Page` and `HomePage` records).
- The price-text regular expression of `try_alternative_extraction` and of
  `extract_from_price_elements`. The texts they find, with their parents or ancestors, are inputs.
- `urljoin`. It is an uninterpreted function in `Dom.Site`.
- IEEE double rounding. `float()` and `int(x * 1.3)` are modelled with exact decimals.
- Non-ASCII digits and letter case in `isdigit`, `\d`, `lower`, `upper` and `title`. Only ASCII
  characters are digits or have a case. Whitespace, in `split`, `strip` and `\s`, follows Python's
  full Unicode set.
- Excel and thumbnail output, SQLite and JSON files, CSV reading, the Flask routes beyond the
  three pure helpers, and the display and summary printing.
- Sorting of the directory listing by lower-cased name. The entries given to
  `BasicCatalog.ProcessFiles` and `Classifier.DirectoryCatalog` arrive in their sorted order;
  which entries are image files, and so which are numbered, is modelled.
- The dates, the USD conversion and pandas NaN handling.

**Modelled differently**
- JsonValue.ScalarText: `str()` of a JSON array or object is read as "". It would give its
  Python repr, which could, in principle, contain a price.
- ComprehensiveScraper.ParseItem: the `TypeError` of `json.loads(None)`, for a script without a
  string, is not modelled. Such a script is an undecodable one.
- ComprehensiveScraper.ParseItem: a name, description, SKU, availability, brand name or first
  image that is present but is not a JSON string is read as "". The source stores the JSON value
  itself in the record: a number, `null`, a list or an object.
- ComprehensiveScraper.ScrapeAllProducts: never raises. In the source, the final duplicate filter
  calls `product.get('name', '').lower()` (comprehensive_shopdydy_scraper.py:434). A structured
  item whose name is `null`, a number, a list or an object makes that call raise
  `AttributeError`, so the run ends without returning its products. The model has read such a
  name as "", and keeps and deduplicates that product like any other.
- ComprehensiveScraper.ExtractProduct: the product link is kept in the one field `url`. An item
  read from structured data stores the page URL there, where the source writes it under the key
  'url' rather than 'product_url'.
- Classifier.BrandFallback: states the fallback through `FirstWord` rather than restating
  Python's full `split()`.
- CategoryScraper.CategoriesFound: states that the URLs are distinct and which URLs appear,
  not that they keep first-seen order.
- CategoryScraper.CategoryOf: states the empty category and, through
  `CategoryHasNoSlashOrHyphen`, the replaced separators. The title-casing of the text after the
  last "/category/" is in the definition but not stated separately.
- Classifier.Catalog: states name, SKU and features per product. Brand, category, price and
  description are stated by the lemmas about `ExtractBrand`, `Categorize` and
  `DetailedDescription`.

## Findings

| source | as written | input that shows it | evidently intended | confidence | as-written member | corrected member |
|---|---|---|---|---|---|---|
| enhanced_product_catalog.py:334 | the bullet is the three characters U+00E2 U+20AC U+00A2, the UTF-8 bytes of "•" decoded as Windows-1252 | any category: every feature line starts with "â€¢ " | "• " (U+2022), as simple_catalog.py:328 writes it | high, not executed | Generators.EnhancedFeaturesAsWritten | Generators.SimpleFeaturesBulleted |
| comprehensive_shopdydy_scraper.py:217 | `item.get('@type', '').lower()` raises AttributeError for a non-string `@type`; only `json.JSONDecodeError` is caught (207-208), so the whole run ends | one JSON-LD script `{"@type": ["Product"]}` | skip an item the reader cannot interpret, as an undecodable script is skipped | medium, not executed | ComprehensiveScraper.ListTypedItemRaises | ComprehensiveScraper.StructuredAgrees |

The corrected definitions are the ones the rest of the model uses:
- The catalog rows of the enhanced generator use `Generators.EnhancedGenerator`, which has the
  intended bullet. `Generators.EnhancedBulletIsMisdecoded` derives the bullet as written.
- The page strategies use `ComprehensiveScraper.StructuredProducts`, built on
  `ComprehensiveScraper.ParseItem`. `ComprehensiveScraper.ParseItemAgrees` and `StructuredAgrees`
  show it agrees with the source wherever the source returns.
