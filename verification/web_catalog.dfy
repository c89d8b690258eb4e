/** The pure helpers of the catalog web viewer, `web_catalog.py`: the upload-name check, the SQL
    text and parameters the catalog page builds from its five request arguments, and the split of
    a stored features text into lines. */
module WebCatalog {
  import opened Wrappers
  import opened Text

  // ---------------------------------------------------------------- allowed_file

  const AllowedExtensions: set<string> := {"png", "jpg", "jpeg", "gif", "webp"}

  /** `allowed_file(filename)`: a '.' occurs and the lower-cased text after the last '.'
      (`rsplit('.', 1)[1]`) is an allowed extension. */
  function AllowedFile(filename: string): bool {
    '.' in filename && Lower(LastPiece(filename, ".")) in AllowedExtensions
  }

  /** The extension of a name is the text after a '.' that no later '.' follows. */
  predicate ExtensionAt(filename: string, i: int) {
    0 <= i < |filename| && filename[i] == '.' && '.' !in filename[i + 1..]
  }

  /** A name is allowed exactly when some '.' in it is followed by a dot-free allowed extension,
      in any letter case. */
  lemma AllowedFileIff(filename: string)
    ensures AllowedFile(filename) <==>
              exists i :: ExtensionAt(filename, i) && Lower(filename[i + 1..]) in AllowedExtensions
  {
    if AllowedFile(filename) {
      var i := LastDotExtension(filename);
      assert ExtensionAt(filename, i) && Lower(filename[i + 1..]) in AllowedExtensions;
    }
    if exists i :: ExtensionAt(filename, i) && Lower(filename[i + 1..]) in AllowedExtensions {
      var i :| ExtensionAt(filename, i) && Lower(filename[i + 1..]) in AllowedExtensions;
      ExtensionIsLastPiece(filename, i);
    }
  }

  /** When a '.' occurs, the last piece follows the last '.'. */
  lemma LastDotExtension(filename: string) returns (i: int)
    requires '.' in filename
    ensures ExtensionAt(filename, i) && filename[i + 1..] == LastPiece(filename, ".")
  {
    LastPieceOfChar(filename, '.');
    var p := LastPiece(filename, ".");
    i := |filename| - |p| - 1;
  }

  /** The text after a '.' that no later '.' follows is the last piece. */
  lemma ExtensionIsLastPiece(filename: string, i: int)
    requires ExtensionAt(filename, i)
    ensures '.' in filename && LastPiece(filename, ".") == filename[i + 1..]
  {
    assert filename == filename[..i] + ['.'] + filename[i + 1..];
    LastPieceAfter(filename[..i], '.', filename[i + 1..]);
  }

  // ---------------------------------------------------------------- the catalog query

  /** An SQL text and the values bound to its '?' placeholders, in order. */
  datatype Query = Query(sql: string, params: seq<string>)

  const BaseSql := "SELECT * FROM products WHERE 1=1"
  const CategoryClause := " AND category = " + "?"
  const BrandClause := " AND brand = " + "?"
  const SearchClause := " AND (name LIKE " + "?" + " OR description LIKE " + "?" + ")"
  const SortColumns: seq<string> := ["name", "brand", "category", "price_ghs", "date_added"]

  /** The number of '?' placeholders in an SQL text. */
  function Placeholders(sql: string): nat {
    if |sql| == 0 then 0 else (if sql[0] == '?' then 1 else 0) + Placeholders(sql[1..])
  }

  lemma {:induction false} PlaceholdersConcat(a: string, b: string)
    ensures Placeholders(a + b) == Placeholders(a) + Placeholders(b)
    decreases |a|
  {
    if |a| == 0 {
      assert a + b == b;
    } else {
      assert (a + b)[1..] == a[1..] + b;
      PlaceholdersConcat(a[1..], b);
    }
  }

  lemma {:induction false} NoPlaceholders(s: string)
    requires '?' !in s
    ensures Placeholders(s) == 0
    decreases |s|
  {
    if |s| > 0 {
      assert s[1..] == s[1..];
      assert forall k :: 1 <= k < |s| ==> s[1..][k - 1] == s[k];
      NoPlaceholders(s[1..]);
    }
  }

  /** The LIKE pattern for a search text: `f'%{search}%'`. */
  function LikePattern(search: string): string {
    "%" + search + "%"
  }

  /** Appends `clause` and its values when the filter is non-empty; an empty filter adds nothing. */
  function AddFilter(q: Query, filter: string, clause: string, values: seq<string>): (r: Query)
    ensures filter == "" ==> r == q
    ensures filter != "" ==> r.sql == q.sql + clause && r.params == q.params + values
    ensures Placeholders(clause) == |values| && Placeholders(q.sql) == |q.params| ==>
              Placeholders(r.sql) == |r.params|
  {
    PlaceholdersConcat(q.sql, clause);
    if filter != "" then Query(q.sql + clause, q.params + values) else q
  }

  /** The filtered part of the query `index()` runs, before any ORDER BY. Every placeholder has
      exactly one value. */
  function Filtered(category: string, brand: string, search: string): (q: Query)
    ensures Placeholders(q.sql) == |q.params|
  {
    var q0 := Query(BaseSql, []);
    var q1 := AddFilter(q0, category, CategoryClause, [category]);
    var q2 := AddFilter(q1, brand, BrandClause, [brand]);
    FragmentPlaceholders();
    AddFilter(q2, search, SearchClause, [LikePattern(search), LikePattern(search)])
  }

  /** The ORDER BY suffix for a whitelisted sort column. */
  function OrderSuffix(sortBy: string, order: string): string {
    " ORDER BY " + sortBy + (if order == "desc" then " DESC" else "")
  }

  /** The query `index()` runs for the values of its request arguments `category`, `brand`,
      `search`, `sort` and `order` (`IndexQuery` supplies the values of absent ones). Every
      placeholder has exactly one value. */
  function BuildQuery(category: string, brand: string, search: string, sortBy: string, order: string)
    : (q: Query)
    ensures Placeholders(q.sql) == |q.params|
  {
    var q := Filtered(category, brand, search);
    if sortBy in SortColumns then
      SortPlaceholders(sortBy, order);
      PlaceholdersConcat(q.sql, OrderSuffix(sortBy, order));
      Query(q.sql + OrderSuffix(sortBy, order), q.params)
    else q
  }

  lemma BasePlaceholders()
    ensures Placeholders(BaseSql) == 0
  {
    NoPlaceholders(BaseSql);
  }

  /** `clause + "?"` carries one placeholder when `clause` carries none. */
  lemma OneMore(clause: string)
    requires '?' !in clause
    ensures Placeholders(clause + "?") == 1
  {
    NoPlaceholders(clause);
    PlaceholdersConcat(clause, "?");
  }

  lemma CategoryPlaceholders()
    ensures Placeholders(CategoryClause) == 1
  {
    OneMore(" AND category = ");
  }

  lemma BrandPlaceholders()
    ensures Placeholders(BrandClause) == 1
  {
    OneMore(" AND brand = ");
  }

  lemma SearchPlaceholders()
    ensures Placeholders(SearchClause) == 2
  {
    var a, b := " AND (name LIKE ", " OR description LIKE ";
    OneMore(a);
    OneMore(b);
    NoPlaceholders(")");
    PlaceholdersConcat(a + "?", b + "?");
    assert a + "?" + b + "?" == (a + "?") + (b + "?");
    PlaceholdersConcat(a + "?" + b + "?", ")");
  }

  /** The fixed fragments carry none, one, one and two placeholders. */
  lemma FragmentPlaceholders()
    ensures Placeholders(BaseSql) == 0
    ensures Placeholders(CategoryClause) == 1
    ensures Placeholders(BrandClause) == 1
    ensures Placeholders(SearchClause) == 2
  {
    BasePlaceholders();
    CategoryPlaceholders();
    BrandPlaceholders();
    SearchPlaceholders();
  }

  /** No whitelisted column name holds a '?'. */
  lemma ColumnsHaveNoPlaceholder(sortBy: string)
    requires sortBy in SortColumns
    ensures '?' !in sortBy
  {
    var k :| 0 <= k < |SortColumns| && SortColumns[k] == sortBy;
    if k == 0 { assert '?' !in SortColumns[0]; }
    else if k == 1 { assert '?' !in SortColumns[1]; }
    else if k == 2 { assert '?' !in SortColumns[2]; }
    else if k == 3 { assert '?' !in SortColumns[3]; }
    else { assert '?' !in SortColumns[4]; }
  }

  lemma OrderByPlaceholders()
    ensures Placeholders(" ORDER BY ") == 0
  {
    NoPlaceholders(" ORDER BY ");
  }

  lemma DescPlaceholders()
    ensures Placeholders(" DESC") == 0
  {
    NoPlaceholders(" DESC");
  }

  /** No ORDER BY suffix built from a whitelisted column carries a placeholder. */
  lemma SortPlaceholders(sortBy: string, order: string)
    requires sortBy in SortColumns
    ensures Placeholders(OrderSuffix(sortBy, order)) == 0
  {
    var d := if order == "desc" then " DESC" else "";
    ColumnsHaveNoPlaceholder(sortBy);
    OrderByPlaceholders();
    DescPlaceholders();
    NoPlaceholders(sortBy);
    PlaceholdersConcat(" ORDER BY ", sortBy);
    PlaceholdersConcat(" ORDER BY " + sortBy, d);
  }

  /** Filters bind their values in the fixed order category, brand, search; an empty filter binds
      nothing, and a search binds its LIKE pattern twice. */
  lemma QueryParams(category: string, brand: string, search: string, sortBy: string, order: string)
    ensures BuildQuery(category, brand, search, sortBy, order).params ==
              (if category != "" then [category] else []) +
              (if brand != "" then [brand] else []) +
              (if search != "" then [LikePattern(search), LikePattern(search)] else [])
  {
  }

  /** The SQL text depends on the three filters only through whether each is empty: no filter
      value ever enters it. */
  lemma SqlIgnoresFilterValues(c1: string, b1: string, s1: string, c2: string, b2: string,
                               s2: string, sortBy: string, order: string)
    requires (c1 == "") == (c2 == "") && (b1 == "") == (b2 == "") && (s1 == "") == (s2 == "")
    ensures BuildQuery(c1, b1, s1, sortBy, order).sql == BuildQuery(c2, b2, s2, sortBy, order).sql
  {
  }

  /** A sort column outside the whitelist, and then any order, leaves the SQL as with an empty
      sort column, without ORDER BY; a whitelisted one appends ORDER BY, with DESC only for order
      "desc". */
  lemma SortWhitelisted(category: string, brand: string, search: string, sortBy: string, order: string)
    ensures sortBy !in SortColumns ==>
              BuildQuery(category, brand, search, sortBy, order).sql ==
              BuildQuery(category, brand, search, "", "").sql
    ensures sortBy in SortColumns ==>
              BuildQuery(category, brand, search, sortBy, order).sql ==
              BuildQuery(category, brand, search, "", "").sql + " ORDER BY " + sortBy +
              (if order == "desc" then " DESC" else "")
  {
    assert "" !in SortColumns;
  }

  // ---------------------------------------------------------------- request defaults

  /** `request.args.get(key, default)`: the argument when the request carries one, else the
      default. */
  function ArgOr(arg: Option<string>, default: string): string {
    if arg.Some? then arg.value else default
  }

  /** The query of `index()` for a request that may leave out any of its five arguments: an
      absent filter reads as "", an absent `sort` as "name" and an absent `order` as "asc". */
  function IndexQuery(category: Option<string>, brand: Option<string>, search: Option<string>,
                      sort: Option<string>, order: Option<string>): (q: Query)
    ensures Placeholders(q.sql) == |q.params|
    ensures category.None? && brand.None? && search.None? ==> q.params == []
  {
    var c, b, s := ArgOr(category, ""), ArgOr(brand, ""), ArgOr(search, "");
    QueryParams(c, b, s, ArgOr(sort, "name"), ArgOr(order, "asc"));
    BuildQuery(c, b, s, ArgOr(sort, "name"), ArgOr(order, "asc"))
  }

  /** A request without `sort` is sorted by name, descending only when `order` is "desc". */
  lemma DefaultSortByName(category: Option<string>, brand: Option<string>,
                          search: Option<string>, order: Option<string>)
    ensures IndexQuery(category, brand, search, None, order).sql ==
              Filtered(ArgOr(category, ""), ArgOr(brand, ""), ArgOr(search, "")).sql +
              " ORDER BY name" + (if order == Some("desc") then " DESC" else "")
  {
    var c, b, s, o := ArgOr(category, ""), ArgOr(brand, ""), ArgOr(search, ""), ArgOr(order, "asc");
    IndexQueryBuilds(category, brand, search, None, order);
    NameWhitelisted();
    WhitelistedQuery(c, b, s, "name", o);
    NameSuffix(o);
    DescOnlyForDesc(order);
    AppendAssoc(Filtered(c, b, s).sql, " ORDER BY name", if o == "desc" then " DESC" else "");
  }

  lemma AppendAssoc(a: string, b: string, c: string)
    ensures a + (b + c) == a + b + c
  {
  }

  /** `IndexQuery` is `BuildQuery` of the defaulted arguments. */
  lemma IndexQueryBuilds(category: Option<string>, brand: Option<string>, search: Option<string>,
                         sort: Option<string>, order: Option<string>)
    ensures IndexQuery(category, brand, search, sort, order) ==
              BuildQuery(ArgOr(category, ""), ArgOr(brand, ""), ArgOr(search, ""),
                         ArgOr(sort, "name"), ArgOr(order, "asc"))
  {
  }

  lemma NameWhitelisted()
    ensures "name" in SortColumns
  {
    assert SortColumns[0] == "name";
  }

  /** A whitelisted column appends its ORDER BY suffix to the filtered query. */
  lemma WhitelistedQuery(category: string, brand: string, search: string, sortBy: string,
                         order: string)
    requires sortBy in SortColumns
    ensures BuildQuery(category, brand, search, sortBy, order).sql ==
              Filtered(category, brand, search).sql + OrderSuffix(sortBy, order)
  {
  }

  lemma NameSuffix(order: string)
    ensures OrderSuffix("name", order) ==
              " ORDER BY name" + (if order == "desc" then " DESC" else "")
  {
    assert " ORDER BY " + "name" == " ORDER BY name";
  }

  /** The defaulted order is "desc" exactly when the request carries "desc". */
  lemma DescOnlyForDesc(order: Option<string>)
    ensures (ArgOr(order, "asc") == "desc") == (order == Some("desc"))
  {
    if order.None? {
      assert "asc"[0] != "desc"[0];
    }
  }

  /** An absent filter argument and an empty one give the same query. */
  lemma AbsentFilterIsEmpty(category: Option<string>, brand: Option<string>,
                            search: Option<string>, sort: Option<string>, order: Option<string>)
    ensures IndexQuery(None, brand, search, sort, order) ==
              IndexQuery(Some(""), brand, search, sort, order)
    ensures IndexQuery(category, None, search, sort, order) ==
              IndexQuery(category, Some(""), search, sort, order)
    ensures IndexQuery(category, brand, None, sort, order) ==
              IndexQuery(category, brand, Some(""), sort, order)
  {
  }

  /** The bare catalog page lists every product by name, ascending, with no values bound. */
  lemma BarePageQuery()
    ensures IndexQuery(None, None, None, None, None) == Query(BaseSql + " ORDER BY name", [])
  {
    DefaultSortByName(None, None, None, None);
    assert Filtered("", "", "") == Query(BaseSql, []);
    assert BaseSql + " ORDER BY name" + "" == BaseSql + " ORDER BY name";
  }

  // ---------------------------------------------------------------- features_list

  /** `features.split('\n') if features else []`. */
  function FeaturesList(features: string): (r: seq<string>)
    ensures features == "" <==> r == []
  {
    if features == "" then [] else SplitOn(features, "\n")
  }

  /** The lines of a non-empty features text join back into it. */
  lemma FeaturesListJoin(features: string)
    ensures Join(FeaturesList(features), "\n") == features
  {
    if features != "" {
      JoinSplit(features, '\n');
    }
  }
}
