/** The first catalog script, `product_catalog.py`: brand is the first word, a five-rule
    category guess, constant features, and a SKU numbered by the count of accepted image files. */
module BasicCatalog {
  import opened Wrappers
  import opened Text
  import opened OrderedTable
  import opened Filtering

  /** `extract_brand(name)`: the first whitespace-separated word, or "Unknown" for a blank name. */
  function ExtractBrand(name: string): (r: string)
    ensures AllSpace(name) ==> r == "Unknown"
    ensures !AllSpace(name) ==>
              var a := LeadingSpace(name);
              && |r| > 0 && NoSpace(r)
              && a + |r| <= |name| && name[a..a + |r|] == r
              && (a + |r| == |name| || IsSpace(name[a + |r|]))
  {
    FirstWord(name).GetOr("Unknown")
  }

  /** `guess_category(name)`: category and subcategory, from the lower-cased name. */
  function GuessCategory(name: string): (string, string) {
    var n := Lower(name);
    if Contains(n, "laptop") || Contains(n, "macbook") then
      ("Laptop", if Contains(n, "pro") then "Professional" else "Business")
    else if Contains(n, "iphone") || Contains(n, "samsung") then ("Smartphone", "Flagship")
    else if Contains(n, "pen drive") || Contains(n, "flash") || Contains(n, "usb") then ("Storage", "USB Drive")
    else if Contains(n, "watch") then ("Wearables", "Smartwatch")
    else ("Electronics", "Other")
  }

  /** The same rules written as a table: each category with the keywords that select it. */
  const CategoryRules: seq<(string, seq<string>)> := [
    ("Laptop", ["laptop", "macbook"]),
    ("Smartphone", ["iphone", "samsung"]),
    ("Storage", ["pen drive", "flash", "usb"]),
    ("Wearables", ["watch"])
  ]

  /** The category `guess_category` gives is that of the first rule of the table with a keyword
      in the lower-cased name, or "Electronics" when no rule has one; a laptop's subcategory is
      "Professional" exactly when "pro" occurs. */
  lemma GuessCategoryByRules(name: string)
    ensures GuessCategory(name).0 ==
              match FirstPatternRow(CategoryRules, Lower(name), 0)
              case Some(i) => CategoryRules[i].0
              case None => "Electronics"
    ensures GuessCategory(name).0 == "Laptop" ==>
              (GuessCategory(name).1 == "Professional" <==> Contains(Lower(name), "pro"))
  {
    var n := Lower(name);
    AnyInTwo("laptop", "macbook", n);
    AnyInTwo("iphone", "samsung", n);
    AnyInThree("pen drive", "flash", "usb", n);
    AnyInOne("watch", n);
    assert CategoryRules[0].1 == ["laptop", "macbook"] && CategoryRules[1].1 == ["iphone", "samsung"];
    assert CategoryRules[2].1 == ["pen drive", "flash", "usb"] && CategoryRules[3].1 == ["watch"];
  }

  /** The four lines of `generate_features`. */
  const FeatureLines: seq<string> := [
    "\U{2022} Durable build", "\U{2022} High performance", "\U{2022} Modern design",
    "\U{2022} Warranty included"]

  /** `generate_features(name)`: the literal
      "• Durable build\n• High performance\n• Modern design\n• Warranty included", written as
      its four lines joined by '\n'; the name is not used. */
  function GenerateFeatures(name: string): string {
    Join(FeatureLines, "\n")
  }

  /** Each of the four lines is one bulleted line. */
  lemma FeatureLinesShape()
    ensures forall k :: 0 <= k < |FeatureLines| ==> '\n' !in FeatureLines[k]
    ensures forall k :: 0 <= k < |FeatureLines| ==> FeatureLines[k][..2] == "\U{2022} "
  {
    var f := FeatureLines;
    assert '\n' !in f[0];
    assert '\n' !in f[1];
    assert '\n' !in f[2];
    assert '\n' !in f[3];
  }

  /** The features split back into the same four bulleted lines whatever the name. */
  lemma FeaturesAreFourLines(name: string)
    ensures SplitOn(GenerateFeatures(name), "\n") == FeatureLines
  {
    FeatureLinesShape();
    SplitJoin(FeatureLines, '\n');
  }

  /** `create_sku(category, index)`: three upper-cased category letters, '-', the index
      zero-padded to four digits. */
  function CreateSku(category: string, index: int): string {
    Upper(Take(category, 3)) + "-" + ZFill(IntToString(index), 4)
  }

  /** The text after the SKU's last '-' reads back as the index. */
  lemma SkuIndexReadBack(category: string, index: nat)
    ensures var tail := LastPiece(CreateSku(category, index), "-");
            && AllDigits(tail) && |tail| >= 4 && DigitsValue(tail) == index
  {
    var z := ZFill(IntToString(index), 4);
    ZFillNatValue(index, 4);
    LastPieceAfter(Upper(Take(category, 3)), '-', z);
  }

  // ---------------------------------------------------------------- the processing loop

  /** A directory entry: its file name and whether it is a regular file. */
  datatype Entry = Entry(fileName: string, isFile: bool)

  /** The position of the last `c` in `s`, as `str.rfind`. */
  function LastIndexOf(s: string, c: char): (r: Option<nat>)
    ensures r.None? <==> c !in s
    ensures r.Some? ==> r.value < |s| && s[r.value] == c && c !in s[r.value + 1..]
  {
    if |s| == 0 then None
    else if s[|s| - 1] == c then Some(|s| - 1)
    else
      var r := LastIndexOf(s[..|s| - 1], c);
      assert s == s[..|s| - 1] + [s[|s| - 1]];
      if r.Some? then
        assert s[r.value + 1..] == s[..|s| - 1][r.value + 1..] + [s[|s| - 1]];
        r
      else r
  }

  /** pathlib's `suffix`: from the last dot on, unless that dot starts or ends the name. */
  function Suffix(fileName: string): string {
    match LastIndexOf(fileName, '.')
    case Some(i) => if 0 < i < |fileName| - 1 then fileName[i..] else ""
    case None => ""
  }

  /** pathlib's `stem`: the name without its suffix. */
  function Stem(fileName: string): (r: string)
    ensures r + Suffix(fileName) == fileName
  {
    match LastIndexOf(fileName, '.')
    case Some(i) =>
      if 0 < i < |fileName| - 1 then
        assert fileName[..i] + fileName[i..] == fileName;
        fileName[..i]
      else fileName
    case None => fileName
  }

  /** A name with a non-empty stem and a dot-free, non-empty extension has the extension, with
      its dot, as suffix. */
  lemma SuffixAfterLastDot(stem: string, ext: string)
    requires |stem| > 0 && |ext| > 0 && '.' !in ext
    ensures Suffix(stem + "." + ext) == "." + ext
  {
    LastDotBeforeExtension(stem, ext);
  }

  lemma {:induction false} LastDotBeforeExtension(stem: string, ext: string)
    requires '.' !in ext
    ensures LastIndexOf(stem + "." + ext, '.') == Some(|stem|)
    decreases |ext|
  {
    var s := stem + "." + ext;
    if |ext| > 0 {
      var ext' := ext[..|ext| - 1];
      assert s[..|s| - 1] == stem + "." + ext';
      assert s[|s| - 1] == ext[|ext| - 1];
      LastDotBeforeExtension(stem, ext');
    }
  }

  const SupportedExtensions: set<string> := {".png", ".jpg", ".jpeg"}

  /** `f.is_file() and f.suffix.lower() in exts`: a regular file whose lower-cased suffix is one
      of `exts`. */
  predicate AcceptedAmong(e: Entry, exts: set<string>) {
    e.isFile && Lower(Suffix(e.fileName)) in exts
  }

  /** The two `continue` checks of the loop. */
  predicate Accepted(e: Entry) {
    AcceptedAmong(e, SupportedExtensions)
  }

  /** One row of the catalog. */
  datatype Row = Row(name: string, brand: string, category: string, subcategory: string,
                     features: string, sku: string)

  function MakeRow(e: Entry, count: nat): Row {
    var name := Stem(e.fileName);
    var (category, subcategory) := GuessCategory(name);
    Row(name, ExtractBrand(name), category, subcategory, GenerateFeatures(name),
        CreateSku(category, count))
  }

  /** Each entry `accept` lets through, paired with the value the counter has when its row is
      made: one more than the number of entries let through before it. */
  function Numbered(entries: seq<Entry>, accept: Entry -> bool): seq<(Entry, nat)> {
    if |entries| == 0 then []
    else
      var pre := Numbered(entries[..|entries| - 1], accept);
      var e := entries[|entries| - 1];
      pre + (if accept(e) then [(e, |pre| + 1)] else [])
  }

  /** The numbering is the filtered entries, in order, the k-th numbered k + 1. */
  lemma {:induction false} NumberedInOrder(entries: seq<Entry>, accept: Entry -> bool)
    ensures |Numbered(entries, accept)| == |Filter(entries, accept)|
    ensures forall k :: 0 <= k < |Numbered(entries, accept)| ==>
              Numbered(entries, accept)[k] == (Filter(entries, accept)[k], k + 1)
    decreases |entries|
  {
    if |entries| > 0 {
      var pre := entries[..|entries| - 1];
      NumberedInOrder(pre, accept);
    }
  }

  /** One row per numbered entry. */
  function RowsOf(n: seq<(Entry, nat)>): (r: seq<Row>)
    ensures |r| == |n|
  {
    seq(|n|, k requires 0 <= k < |n| => MakeRow(n[k].0, n[k].1))
  }

  lemma RowsOfSnoc(n: seq<(Entry, nat)>, e: Entry, count: nat)
    ensures RowsOf(n + [(e, count)]) == RowsOf(n) + [MakeRow(e, count)]
  {
  }

  /** The rows the loop produces. */
  function Rows(entries: seq<Entry>): seq<Row> {
    RowsOf(Numbered(entries, Accepted))
  }

  /** Rows made with different numbers have different SKUs, whatever their entries. */
  lemma SkusOfDifferentNumbers(a: Entry, b: Entry, m: nat, n: nat)
    requires m != n
    ensures MakeRow(a, m).sku != MakeRow(b, n).sku
  {
    SkuIndexReadBack(MakeRow(a, m).category, m);
    SkuIndexReadBack(MakeRow(b, n).category, n);
  }

  /** No two rows share a SKU: each SKU ends in its row's 1-based number. */
  lemma RowsSkusDistinct(entries: seq<Entry>, i: nat, j: nat)
    requires i < j < |Rows(entries)|
    ensures Rows(entries)[i].sku != Rows(entries)[j].sku
  {
    var n := Numbered(entries, Accepted);
    NumberedInOrder(entries, Accepted);
    SkusOfDifferentNumbers(n[i].0, n[j].0, n[i].1, n[j].1);
  }

  /** The rows are the accepted entries in order, the k-th numbered k + 1. */
  lemma RowsAreAcceptedInOrder(entries: seq<Entry>, k: nat)
    requires k < |Rows(entries)|
    ensures k < |Filter(entries, Accepted)|
    ensures Rows(entries)[k] == MakeRow(Filter(entries, Accepted)[k], k + 1)
  {
    NumberedInOrder(entries, Accepted);
  }

  /** The loop of the script: skipped entries do not advance `processed_count`, so the rows are
      the accepted entries numbered 1, 2, 3, ... and no two rows share a SKU. */
  method ProcessFiles(entries: seq<Entry>) returns (rows: seq<Row>, processedCount: nat)
    ensures rows == Rows(entries)
    ensures processedCount == |rows|
    ensures forall i, j :: 0 <= i < j < |rows| ==> rows[i].sku != rows[j].sku
  {
    rows := [];
    processedCount := 0;
    for n := 0 to |entries|
      invariant processedCount == |rows|
      invariant rows == Rows(entries[..n])
    {
      var e := entries[n];
      ghost var pre := Numbered(entries[..n], Accepted);
      assert entries[..n + 1][..n] == entries[..n];
      if e.isFile && Lower(Suffix(e.fileName)) in SupportedExtensions {
        processedCount := processedCount + 1;
        RowsOfSnoc(pre, e, processedCount);
        rows := rows + [MakeRow(e, processedCount)];
      } else {
        assert pre + [] == pre;
      }
    }
    assert entries[..|entries|] == entries;
    forall i, j | 0 <= i < j < |rows| ensures rows[i].sku != rows[j].sku {
      RowsSkusDistinct(entries, i, j);
    }
  }
}
