/** The products page's client-side logic: the category menu ("All" and
    then each product category once, in order of first appearance) and the
    list shown for a chosen category and search text. A product is shown when
    its category is the chosen one (or "All" is chosen) and its lower-cased
    name contains the lower-cased search text. Lower-casing is ASCII only. */
module ProductsPage {
  import opened Basics
  import opened Store

  const AllCategories := "All"

  // ---------------------------------------------------------------------------
  // Category menu

  predicate NoDuplicates<T(==)>(s: seq<T>) {
    forall i, j | 0 <= i < j < |s| :: s[i] != s[j]
  }

  /** Position of the first occurrence of `x` in `s`. */
  function FirstIndex<T(==)>(s: seq<T>, x: T): (k: nat)
    requires x in s
    ensures k < |s| && s[k] == x
    ensures forall i | 0 <= i < k :: s[i] != x
  {
    if s[0] == x then 0 else 1 + FirstIndex(s[1..], x)
  }

  /** `[...new Set(s)]`: the distinct elements of `s`, left to right, each
      kept at its first occurrence. */
  function Distinct<T(==)>(s: seq<T>): seq<T>
    decreases |s|
  {
    if |s| == 0 then []
    else
      var seen := Distinct(s[..|s| - 1]);
      if s[|s| - 1] in seen then seen else seen + [s[|s| - 1]]
  }

  lemma FirstIndexExtend<T>(p: seq<T>, y: T, x: T)
    requires x in p
    ensures FirstIndex(p + [y], x) == FirstIndex(p, x)
  {
    var k := FirstIndex(p, x);
    var k' := FirstIndex(p + [y], x);
    assert (p + [y])[k] == x;
    assert p[k'] == x || k' == |p|;
  }

  /** The distinct elements are those of `s`, each once, ordered by where
      they first occur in `s`. */
  lemma {:induction false} DistinctSpec(s: seq<string>)
    ensures forall x :: x in Distinct(s) <==> x in s
    ensures NoDuplicates(Distinct(s))
    ensures forall i, j | 0 <= i < j < |Distinct(s)| ::
      FirstIndex(s, Distinct(s)[i]) < FirstIndex(s, Distinct(s)[j])
    decreases |s|
  {
    if |s| > 0 {
      var p, x := s[..|s| - 1], s[|s| - 1];
      assert s == p + [x];
      DistinctSpec(p);
      var seen := Distinct(p);
      forall i | 0 <= i < |seen|
        ensures seen[i] in p && FirstIndex(s, seen[i]) == FirstIndex(p, seen[i])
      {
        assert seen[i] in seen;
        FirstIndexExtend(p, x, seen[i]);
      }
      if x !in seen {
        var d := seen + [x];
        assert FirstIndex(s, x) == |p|;
        forall i, j | 0 <= i < j < |d|
          ensures FirstIndex(s, d[i]) < FirstIndex(s, d[j])
        {
          assert d[i] == seen[i];
          if j < |seen| {
            assert d[j] == seen[j];
          }
        }
      }
    }
  }

  function CategoryNames(products: seq<ProductView>): (r: seq<string>)
    ensures |r| == |products| && forall i | 0 <= i < |products| :: r[i] == products[i].category
  {
    seq(|products|, i requires 0 <= i < |products| => products[i].category)
  }

  /** `['All', ...new Set(products.map(p => p.category))]`. */
  function Categories(products: seq<ProductView>): seq<string> {
    [AllCategories] + Distinct(CategoryNames(products))
  }

  /** The menu starts with "All", lists every product category exactly once
      and nothing else, in order of first appearance. */
  lemma CategoriesSpec(products: seq<ProductView>)
    ensures var cs := Categories(products);
      && |cs| > 0 && cs[0] == AllCategories
      && (forall c :: c in cs[1..] <==> exists i | 0 <= i < |products| :: products[i].category == c)
      && NoDuplicates(cs[1..])
      && forall i, j | 1 <= i < j < |cs| ::
           && cs[i] in CategoryNames(products) && cs[j] in CategoryNames(products)
           && FirstIndex(CategoryNames(products), cs[i]) < FirstIndex(CategoryNames(products), cs[j])
  {
    var names := CategoryNames(products);
    DistinctSpec(names);
    var cs := Categories(products);
    assert cs[1..] == Distinct(names);
    forall c
      ensures c in cs[1..] <==> exists i | 0 <= i < |products| :: products[i].category == c
    {
      if c in names {
        var i :| 0 <= i < |names| && names[i] == c;
        assert products[i].category == c;
      }
    }
    forall i, j | 1 <= i < j < |cs|
      ensures cs[i] in names && cs[j] in names && FirstIndex(names, cs[i]) < FirstIndex(names, cs[j])
    {
      assert cs[i] == Distinct(names)[i - 1] && cs[j] == Distinct(names)[j - 1];
    }
  }

  // ---------------------------------------------------------------------------
  // Search filter

  function LowerChar(c: char): char {
    if 'A' <= c <= 'Z' then (c as int + 32) as char else c
  }

  /** `toLowerCase`, ASCII letters only. */
  function Lower(s: string): (r: string)
    ensures |r| == |s| && forall i | 0 <= i < |s| :: r[i] == LowerChar(s[i])
  {
    seq(|s|, i requires 0 <= i < |s| => LowerChar(s[i]))
  }

  /** `hay.includes(needle)`: `needle` occurs at some position of `hay`. */
  predicate Includes(hay: string, needle: string)
    decreases |hay|
  {
    (|needle| <= |hay| && hay[..|needle|] == needle) || (|hay| > 0 && Includes(hay[1..], needle))
  }

  predicate MatchesCategory(product: ProductView, category: string) {
    category == AllCategories || product.category == category
  }

  predicate MatchesSearch(product: ProductView, search: string) {
    Includes(Lower(product.name), Lower(search))
  }

  function InCategory(category: string): ProductView -> bool {
    (p: ProductView) => MatchesCategory(p, category)
  }

  function HasText(search: string): ProductView -> bool {
    (p: ProductView) => MatchesSearch(p, search)
  }

  function Matcher(category: string, search: string): ProductView -> bool {
    (p: ProductView) => MatchesCategory(p, category) && MatchesSearch(p, search)
  }

  /** The list shown for the chosen category and search text: an
      order-preserving subsequence of the products holding exactly the
      products that pass both tests. */
  function FilterProducts(products: seq<ProductView>, category: string, search: string): (r: seq<ProductView>)
    ensures IsSubsequence(r, products)
    ensures forall i | 0 <= i < |r| ::
      r[i] in products && MatchesCategory(r[i], category) && MatchesSearch(r[i], search)
    ensures forall i | 0 <= i < |products| ::
      MatchesCategory(products[i], category) && MatchesSearch(products[i], search) ==> products[i] in r
    ensures forall i | 0 <= i < |products| && MatchesCategory(products[i], category) && MatchesSearch(products[i], search) ::
      multiset(r)[products[i]] == multiset(products)[products[i]]
  {
    FilterIsSubsequence(products, Matcher(category, search));
    FilterCounts(products, Matcher(category, search));
    Filter(products, Matcher(category, search))
  }

  lemma {:induction false} IncludesEmpty(hay: string)
    ensures Includes(hay, "")
  {
    assert hay[..0] == "";
  }

  /** "All" with an empty search shows every product. */
  lemma AllAndEmptySearchKeepEverything(products: seq<ProductView>)
    ensures FilterProducts(products, AllCategories, "") == products
  {
    forall i | 0 <= i < |products|
      ensures Matcher(AllCategories, "")(products[i])
    {
      IncludesEmpty(Lower(products[i].name));
      assert Lower("") == "";
    }
    FilterAll(products, Matcher(AllCategories, ""));
  }

  /** Choosing a category, or typing a search, never adds products: the
      result is a subsequence of the result without that constraint. */
  lemma ConstraintsOnlyNarrow(products: seq<ProductView>, category: string, search: string)
    ensures IsSubsequence(FilterProducts(products, category, search), FilterProducts(products, AllCategories, search))
    ensures IsSubsequence(FilterProducts(products, category, search), FilterProducts(products, category, ""))
  {
    FilterMonotone(products, Matcher(category, search), Matcher(AllCategories, search));
    forall p: ProductView
      ensures Matcher(category, search)(p) ==> Matcher(category, "")(p)
    {
      IncludesEmpty(Lower(p.name));
      assert Lower("") == "";
    }
    FilterMonotone(products, Matcher(category, search), Matcher(category, ""));
  }

  /** Filtering by category and then by search text gives the same list as
      the combined test. */
  lemma FilterIsCategoryThenSearch(products: seq<ProductView>, category: string, search: string)
    ensures FilterProducts(products, category, search) ==
      Filter(Filter(products, InCategory(category)), HasText(search))
  {
    FilterCompose(products, InCategory(category), HasText(search), Matcher(category, search));
  }

  /** Lower-casing leaves no ASCII capital, changes only ASCII capitals, and
      doing it twice is doing it once. */
  lemma LowerNormalizes(s: string)
    ensures forall i | 0 <= i < |s| :: !('A' <= Lower(s)[i] <= 'Z')
    ensures forall i | 0 <= i < |s| && !('A' <= s[i] <= 'Z') :: Lower(s)[i] == s[i]
    ensures Lower(Lower(s)) == Lower(s)
  {
  }

  /** The search ignores case: searching for the text or for its lower-cased
      form shows the same list, and a product whose name differs from
      another's only in case matches the same searches. */
  lemma SearchIgnoresCase(products: seq<ProductView>, category: string, search: string)
    ensures FilterProducts(products, category, Lower(search)) == FilterProducts(products, category, search)
    ensures forall p: ProductView, q: ProductView | Lower(p.name) == Lower(q.name) ::
      MatchesSearch(p, search) == MatchesSearch(q, search)
  {
    LowerNormalizes(search);
    FilterSameTest(products, Matcher(category, Lower(search)), Matcher(category, search));
  }
}
