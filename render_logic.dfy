/**
 * The render-logic page: a fixed product list narrowed by a search term and an
 * in-stock switch, sorted by the chosen key, and summarised by statistics, all
 * computed on every render.
 */
module RenderLogic {
  import opened Text
  import opened Lists
  import opened Averages

  /** A product; prices are whole dollars and ratings are in tenths of a star. */
  datatype Product = Product(id: int, name: string, price: int, rating: int, inStock: bool, category: string)

  /** The three entries of the "Sort By" menu. */
  datatype SortKey = ByName | ByPrice | ByRating

  // ---------------------------------------------------------------- filtering

  /**
   * `product.name.toLowerCase().includes(searchTerm.toLowerCase())`: only a name at
   * least as long as the term can match, and the empty term matches every product.
   */
  function MatchesSearch(p: Product, searchTerm: string): (m: bool)
    ensures m ==> |searchTerm| <= |p.name|
    ensures searchTerm == "" ==> m
  {
    Includes(ToLower(p.name), ToLower(searchTerm))
  }

  /** The search ignores case: upper-casing the term or the name changes no match. */
  lemma SearchIgnoresCase(p: Product, searchTerm: string)
    ensures MatchesSearch(p, ToUpper(searchTerm)) == MatchesSearch(p, searchTerm)
    ensures MatchesSearch(p.(name := ToUpper(p.name)), searchTerm) == MatchesSearch(p, searchTerm)
  {
    LowerOfUpper(searchTerm);
    LowerOfUpper(p.name);
  }

  predicate InStock(p: Product)
  {
    p.inStock
  }

  predicate OutOfStock(p: Product)
  {
    !p.inStock
  }

  /**
   * Whether a product survives both filters: it matches the search, and it is in
   * stock when the switch is on; with the switch off, stock plays no part.
   */
  function Shown(p: Product, searchTerm: string, showOnlyInStock: bool): (shown: bool)
    ensures shown ==> MatchesSearch(p, searchTerm)
    ensures shown && showOnlyInStock ==> p.inStock
    ensures !showOnlyInStock ==> (shown <==> MatchesSearch(p, searchTerm))
    ensures showOnlyInStock ==> (shown <==> MatchesSearch(p, searchTerm) && p.inStock)
  {
    MatchesSearch(p, searchTerm) && (showOnlyInStock ==> p.inStock)
  }

  /** Every product occurs at most once. */
  ghost predicate NoDuplicates(s: seq<Product>)
  {
    forall p :: multiset(s)[p] <= 1
  }

  // ---------------------------------------------------------------- ordering

  /**
   * `a.name.localeCompare(b.name)`, as a comparison of code points: negative,
   * zero or positive as `a` comes before, equals or comes after `b`.
   */
  function CompareNames(a: string, b: string): (c: int)
    ensures -1 <= c <= 1
    ensures c == 0 <==> a == b
  {
    if a == [] && b == [] then 0
    else if a == [] then -1
    else if b == [] then 1
    else if a[0] < b[0] then -1
    else if a[0] > b[0] then 1
    else
      var c := CompareNames(a[1..], b[1..]);
      assert a == [a[0]] + a[1..] && b == [b[0]] + b[1..];
      c
  }

  /** Swapping the operands of the name comparison negates it. */
  lemma {:induction false} CompareNamesFlip(a: string, b: string)
    ensures CompareNames(b, a) == -CompareNames(a, b)
  {
    if a != [] && b != [] && a[0] == b[0] {
      CompareNamesFlip(a[1..], b[1..]);
    }
  }

  /** The name order is transitive. */
  lemma {:induction false} CompareNamesTransitive(a: string, b: string, c: string)
    requires CompareNames(a, b) <= 0 && CompareNames(b, c) <= 0
    ensures CompareNames(a, c) <= 0
  {
    if a != [] && b != [] && c != [] && a[0] == b[0] == c[0] {
      CompareNamesTransitive(a[1..], b[1..], c[1..]);
    }
  }

  /**
   * The comparator given to `sort`: at most 0 when `a` may stand before `b`, which
   * by price means `a` is no dearer, by rating that `a` is rated no lower, and by
   * name that `a`'s name comes first or is the same.
   */
  function Compare(a: Product, b: Product, key: SortKey): (c: int)
    ensures key == ByPrice ==> (c <= 0 <==> a.price <= b.price)
    ensures key == ByRating ==> (c <= 0 <==> a.rating >= b.rating)
    ensures key == ByName ==> (c == 0 <==> a.name == b.name)
  {
    match key
    case ByName => CompareNames(a.name, b.name)
    case ByPrice => a.price - b.price
    case ByRating => b.rating - a.rating
  }

  /** Each neighbour pair is in the order the comparator asks for. */
  predicate SortedBy(s: seq<Product>, key: SortKey)
  {
    forall k :: 0 < k < |s| ==> Compare(s[k - 1], s[k], key) <= 0
  }

  /** If `a` does not belong before `b`, then `b` may stand before `a`. */
  lemma CompareTotal(a: Product, b: Product, key: SortKey)
    ensures Compare(a, b, key) > 0 ==> Compare(b, a, key) < 0
  {
    if key.ByName? { CompareNamesFlip(a.name, b.name); }
  }

  /** The comparator's order is transitive. */
  lemma CompareTransitive(a: Product, b: Product, c: Product, key: SortKey)
    requires Compare(a, b, key) <= 0 && Compare(b, c, key) <= 0
    ensures Compare(a, c, key) <= 0
  {
    if key.ByName? { CompareNamesTransitive(a.name, b.name, c.name); }
  }

  /** A list sorted pair by pair is sorted between any two positions. */
  lemma {:induction false} SortedPairwise(s: seq<Product>, key: SortKey)
    requires SortedBy(s, key)
    ensures forall i, j :: 0 <= i < j < |s| ==> Compare(s[i], s[j], key) <= 0
  {
    if |s| > 1 {
      SortedPairwise(s[1..], key);
      forall i, j | 0 <= i < j < |s| ensures Compare(s[i], s[j], key) <= 0 {
        if 0 < i {
          assert s[i] == s[1..][i - 1] && s[j] == s[1..][j - 1];
        } else if 1 < j {
          assert s[1] == s[1..][0] && s[j] == s[1..][j - 1];
          CompareTransitive(s[0], s[1], s[j], key);
        }
      }
    }
  }

  /** Sorted by price means cheapest first; sorted by rating means best rated first. */
  lemma SortedMeaning(s: seq<Product>, key: SortKey)
    requires SortedBy(s, key)
    ensures key == ByPrice ==> forall i, j :: 0 <= i < j < |s| ==> s[i].price <= s[j].price
    ensures key == ByRating ==> forall i, j :: 0 <= i < j < |s| ==> s[i].rating >= s[j].rating
    ensures key == ByName ==> forall i, j :: 0 <= i < j < |s| ==> CompareNames(s[i].name, s[j].name) <= 0
  {
    SortedPairwise(s, key);
  }

  /**
   * `filtered.sort(comparator)` on the fresh filtered array: afterwards the array
   * is sorted by `key` and holds the same products as before, as often as before.
   */
  method SortInPlace(a: array<Product>, key: SortKey)
    modifies a
    ensures SortedBy(a[..], key)
    ensures multiset(a[..]) == multiset(old(a[..]))
  {
    var i := 1;
    while i < a.Length
      invariant a.Length == 0 || 1 <= i <= a.Length
      invariant forall k :: 0 < k < i && k < a.Length ==> Compare(a[k - 1], a[k], key) <= 0
      invariant multiset(a[..]) == multiset(old(a[..]))
    {
      InsertIntoPrefix(a, i, key);
      i := i + 1;
    }
  }

  /**
   * One step of the insertion sort: `a[i]` moves left past every larger neighbour,
   * so that the first `i + 1` elements are sorted; the rest stays in place.
   */
  method InsertIntoPrefix(a: array<Product>, i: int, key: SortKey)
    requires 0 < i < a.Length
    requires forall k :: 0 < k < i ==> Compare(a[k - 1], a[k], key) <= 0
    modifies a
    ensures forall k :: 0 < k <= i ==> Compare(a[k - 1], a[k], key) <= 0
    ensures multiset(a[..]) == multiset(old(a[..]))
  {
    var j := i;
    while j > 0 && Compare(a[j], a[j - 1], key) < 0
      invariant 0 <= j <= i
      invariant forall k :: 0 < k <= i && k != j ==> Compare(a[k - 1], a[k], key) <= 0
      invariant 0 < j < i ==> Compare(a[j - 1], a[j + 1], key) <= 0
      invariant multiset(a[..]) == multiset(old(a[..]))
    {
      SwapNeighbours(a, j);
      j := j - 1;
    }
    if j > 0 {
      CompareTotal(a[j - 1], a[j], key);
    }
  }

  /** Exchange `a[j - 1]` and `a[j]`; nothing else moves. */
  method SwapNeighbours(a: array<Product>, j: int)
    requires 0 < j < a.Length
    modifies a
    ensures a[j - 1] == old(a[j]) && a[j] == old(a[j - 1])
    ensures forall k :: 0 <= k < a.Length && k != j - 1 && k != j ==> a[k] == old(a[k])
    ensures multiset(a[..]) == multiset(old(a[..]))
  {
    a[j - 1], a[j] := a[j], a[j - 1];
  }

  /**
   * The `filteredAndSortedProducts` block: the products matching the search (and
   * in stock, when the switch is on), each as often as in `products`, nothing
   * else, sorted by `sortBy`.
   */
  method FilteredAndSortedProducts(products: seq<Product>, searchTerm: string,
                                   showOnlyInStock: bool, sortBy: SortKey)
    returns (result: seq<Product>)
    ensures forall k :: 0 <= k < |result| ==> Shown(result[k], searchTerm, showOnlyInStock)
    ensures forall p :: p in products && Shown(p, searchTerm, showOnlyInStock) ==> p in result
    ensures forall p :: multiset(result)[p] ==
              if Shown(p, searchTerm, showOnlyInStock) then multiset(products)[p] else 0
    ensures SortedBy(result, sortBy)
    ensures NoDuplicates(products) ==> NoDuplicates(result)
    ensures searchTerm == "" && !showOnlyInStock ==> multiset(result) == multiset(products)
  {
    var filtered := Filter(products, p => MatchesSearch(p, searchTerm));
    ghost var matching := filtered;
    if showOnlyInStock {
      filtered := Filter(filtered, InStock);
    }
    var a := new Product[|filtered|](k requires 0 <= k < |filtered| => filtered[k]);
    assert a[..] == filtered;
    SortInPlace(a, sortBy);
    result := a[..];
    ShownMultiset(products, matching, filtered, searchTerm, showOnlyInStock);
    ShownMembers(products, result, searchTerm, showOnlyInStock);
  }

  /** The two filters together keep each shown product as often as it occurs, and nothing else. */
  lemma ShownMultiset(products: seq<Product>, matching: seq<Product>, filtered: seq<Product>,
                      searchTerm: string, showOnlyInStock: bool)
    requires forall p :: multiset(matching)[p] ==
               if MatchesSearch(p, searchTerm) then multiset(products)[p] else 0
    requires showOnlyInStock ==>
               forall p :: multiset(filtered)[p] == if InStock(p) then multiset(matching)[p] else 0
    requires !showOnlyInStock ==> filtered == matching
    ensures forall p :: multiset(filtered)[p] ==
              if Shown(p, searchTerm, showOnlyInStock) then multiset(products)[p] else 0
  {
  }

  /** What follows for membership, duplicates and the empty search from the multiset of the result. */
  lemma ShownMembers(products: seq<Product>, result: seq<Product>,
                     searchTerm: string, showOnlyInStock: bool)
    requires forall p :: multiset(result)[p] ==
               if Shown(p, searchTerm, showOnlyInStock) then multiset(products)[p] else 0
    ensures forall k :: 0 <= k < |result| ==> Shown(result[k], searchTerm, showOnlyInStock)
    ensures forall p :: p in products && Shown(p, searchTerm, showOnlyInStock) ==> p in result
    ensures NoDuplicates(products) ==> NoDuplicates(result)
    ensures searchTerm == "" && !showOnlyInStock ==> multiset(result) == multiset(products)
  {
    forall k | 0 <= k < |result| ensures Shown(result[k], searchTerm, showOnlyInStock) {
      assert result[k] in multiset(result);
    }
    forall p | p in products && Shown(p, searchTerm, showOnlyInStock) ensures p in result {
      assert p in multiset(products);
      assert p in multiset(result);
    }
    if searchTerm == "" && !showOnlyInStock {
      assert forall p :: multiset(result)[p] == multiset(products)[p];
    }
  }

  // ---------------------------------------------------------------- statistics

  /** The five figures of the "Statistics" panel; the averages are exact fractions. */
  datatype ProductStats = ProductStats(total: int, inStock: int, outOfStock: int,
                                       averagePrice: Ratio, averageRating: Ratio)

  /** The sum of the prices: 0 for no products, never negative when no price is. */
  function SumPrices(s: seq<Product>): (sum: int)
    ensures s == [] ==> sum == 0
    ensures (forall k :: 0 <= k < |s| ==> s[k].price >= 0) ==> sum >= 0
  {
    if s == [] then 0 else s[0].price + SumPrices(s[1..])
  }

  /** The sum of the ratings: 0 for no products, never negative when no rating is. */
  function SumRatings(s: seq<Product>): (sum: int)
    ensures s == [] ==> sum == 0
    ensures (forall k :: 0 <= k < |s| ==> s[k].rating >= 0) ==> sum >= 0
  {
    if s == [] then 0 else s[0].rating + SumRatings(s[1..])
  }

  /** Filtering by stock keeps one product per position holding a product in (out of) stock. */
  lemma StockCounts(s: seq<Product>)
    ensures |Filter(s, InStock)| == |set k | 0 <= k < |s| && s[k].inStock|
    ensures |Filter(s, OutOfStock)| == |set k | 0 <= k < |s| && !s[k].inStock|
  {
    FilterLength(s, InStock);
    assert Passing(s, InStock) == set k | 0 <= k < |s| && s[k].inStock;
    FilterLength(s, OutOfStock);
    assert Passing(s, OutOfStock) == set k | 0 <= k < |s| && !s[k].inStock;
  }

  /**
   * `stats`: the total is the number of products shown, split into the number of
   * positions holding a product in stock and the number holding one out of stock;
   * both averages are 0 for an empty list and otherwise the sum divided by the total.
   */
  function Stats(s: seq<Product>): (st: ProductStats)
    ensures st.total == |s|
    ensures st.inStock == |set k | 0 <= k < |s| && s[k].inStock|
    ensures st.outOfStock == |set k | 0 <= k < |s| && !s[k].inStock|
    ensures 0 <= st.inStock && 0 <= st.outOfStock && st.inStock + st.outOfStock == st.total
    ensures (forall k :: 0 <= k < |s| ==> s[k].inStock) ==> st.inStock == st.total
    ensures st.averagePrice.den > 0 && st.averageRating.den > 0
    ensures s == [] ==> st.averagePrice.num == 0 && st.averageRating.num == 0
    ensures s != [] ==> st.averagePrice.num * |s| == SumPrices(s) * st.averagePrice.den
    ensures s != [] ==> st.averageRating.num * |s| == SumRatings(s) * st.averageRating.den
  {
    FilterComplement(s, InStock, OutOfStock);
    StockCounts(s);
    assert (forall k :: 0 <= k < |s| ==> s[k].inStock) ==> |Filter(s, InStock)| == |s| by {
      if forall k :: 0 <= k < |s| ==> s[k].inStock {
        FilterKeepsAll(s, InStock);
      }
    }
    ProductStats(|s|, |Filter(s, InStock)|, |Filter(s, OutOfStock)|,
                 Average(SumPrices(s), |s|), Average(SumRatings(s), |s|))
  }

  // ---------------------------------------------------------------- badges

  const InStockBadge := "bg-green-100 text-green-800 px-2 py-1 rounded-full text-xs"
  const OutOfStockBadge := "bg-red-100 text-red-800 px-2 py-1 rounded-full text-xs"

  /** `getStockBadgeClass`: the green badge exactly for products in stock, the red one otherwise. */
  function StockBadgeClass(inStock: bool): (cls: string)
    ensures cls == InStockBadge <==> inStock
    ensures cls == OutOfStockBadge <==> !inStock
  {
    assert |InStockBadge| != |OutOfStockBadge|;
    if inStock then InStockBadge else OutOfStockBadge
  }
}
