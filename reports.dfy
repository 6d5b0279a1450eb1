/**
 * The report aggregations over a buyer's receipt items: per-product tops (by total, weight
 * and nutrients), the per-product summary with its optional re-sorting, and the suggested
 * balance of nutrients. The dictionaries the source fills are kept as sequences of
 * entries in insertion order, which is the order Python's `dict` iterates in.
 */
module Reports {
  import opened Base
  import opened Models

  const TopSize: nat := 10

  // ---------------------------------------------------------------- sorting

  /** `xs` ordered from the largest key down. */
  predicate SortedDesc<T>(xs: seq<T>, key: T -> real)
  {
    forall i, j :: 0 <= i < j < |xs| ==> key(xs[i]) >= key(xs[j])
  }

  /** `x` put into sorted `xs` after every element whose key is not smaller. */
  function Insert<T>(xs: seq<T>, x: T, key: T -> real): seq<T>
  {
    if xs == [] then [x]
    else if key(xs[0]) >= key(x) then [xs[0]] + Insert(xs[1..], x, key)
    else [x] + xs
  }

  /**
   * `sorted(xs, key=key, reverse=True)`: Python's sort is stable, and with `reverse` equal
   * keys keep their original order, which inserting each element after its equals gives.
   */
  function SortDesc<T>(xs: seq<T>, key: T -> real): seq<T>
  {
    if xs == [] then [] else Insert(SortDesc(xs[..|xs| - 1], key), xs[|xs| - 1], key)
  }

  lemma {:induction false} InsertPermutes<T>(xs: seq<T>, x: T, key: T -> real)
    ensures multiset(Insert(xs, x, key)) == multiset(xs) + multiset{x}
  {
    if xs != [] && key(xs[0]) >= key(x) {
      InsertPermutes(xs[1..], x, key);
      assert xs == [xs[0]] + xs[1..];
    }
  }

  lemma {:induction false} InsertSorted<T>(xs: seq<T>, x: T, key: T -> real)
    requires SortedDesc(xs, key)
    ensures SortedDesc(Insert(xs, x, key), key)
  {
    if xs != [] && key(xs[0]) >= key(x) {
      var rest := Insert(xs[1..], x, key);
      InsertSorted(xs[1..], x, key);
      InsertPermutes(xs[1..], x, key);
      forall k | 0 <= k < |rest| ensures key(xs[0]) >= key(rest[k]) {
        assert rest[k] in multiset(xs[1..]) + multiset{x};
        if rest[k] != x {
          var j :| 0 <= j < |xs[1..]| && xs[1..][j] == rest[k];
          assert xs[1..][j] == xs[j + 1];
        }
      }
    }
  }

  /** The sort is a permutation of its input, largest key first. */
  lemma {:induction false} SortDescMeaning<T>(xs: seq<T>, key: T -> real)
    ensures multiset(SortDesc(xs, key)) == multiset(xs) && |SortDesc(xs, key)| == |xs|
    ensures SortedDesc(SortDesc(xs, key), key)
  {
    if xs != [] {
      var front := xs[..|xs| - 1];
      SortDescMeaning(front, key);
      InsertPermutes(SortDesc(front, key), xs[|xs| - 1], key);
      InsertSorted(SortDesc(front, key), xs[|xs| - 1], key);
      assert xs == front + [xs[|xs| - 1]];
    }
  }

  // ---------------------------------------------------------------- grouping by product

  /** What one item adds to its product's value, or `None` when the item is skipped. */
  type Contribution = ReceiptItem -> Option<real>

  /** A product with its accumulated value. */
  type Entry = (Product, real)

  function Value(e: Entry): real { e.1 }

  function Keyed(p: Product): Entry -> bool
  {
    (e: Entry) => e.0 == p
  }

  /** `if product not in products: products[product] = 0` followed by `products[product] += v`. */
  function Accumulate(groups: seq<Entry>, p: Product, v: real): (r: seq<Entry>)
  {
    match First(groups, Keyed(p))
    case Some(k) => groups[k := (p, groups[k].1 + v)]
    case None => groups + [(p, 0.0 + v)]
  }

  /** The dictionary after the loop over `items`: one entry per product, first-seen order. */
  function Group(items: seq<ReceiptItem>, c: Contribution): seq<Entry>
  {
    if items == [] then []
    else
      var groups := Group(items[..|items| - 1], c);
      var item := items[|items| - 1];
      match c(item)
      case None => groups
      case Some(v) => Accumulate(groups, item.product, v)
  }

  /** The reference sum: what the items of product `p` contribute, in total. */
  function SumFor(items: seq<ReceiptItem>, c: Contribution, p: Product): real
  {
    if items == [] then 0.0
    else
      var item := items[|items| - 1];
      SumFor(items[..|items| - 1], c, p) + if item.product == p && c(item).Some? then c(item).value else 0.0
  }

  predicate DistinctProducts<V>(entries: seq<(Product, V)>)
  {
    forall i, j :: 0 <= i < j < |entries| ==> entries[i].0 != entries[j].0
  }

  /** `p in products`. */
  predicate Has(groups: seq<Entry>, p: Product)
  {
    First(groups, Keyed(p)).Some?
  }

  /** `products.get(p, 0)`. */
  function Lookup(groups: seq<Entry>, p: Product): real
  {
    match First(groups, Keyed(p))
    case Some(k) => groups[k].1
    case None => 0.0
  }

  /** Some item of product `p` contributes. */
  predicate Contributes(items: seq<ReceiptItem>, c: Contribution, p: Product)
  {
    exists k :: 0 <= k < |items| && items[k].product == p && c(items[k]).Some?
  }

  /** Entries with the same products in the same places are searched alike. */
  lemma SameKeys(g: seq<Entry>, r: seq<Entry>, q: Product)
    requires |g| == |r| && forall i :: 0 <= i < |g| ==> g[i].0 == r[i].0
    ensures First(r, Keyed(q)) == First(g, Keyed(q))
  {
    var a, b := First(g, Keyed(q)), First(r, Keyed(q));
    if a.Some? {
      assert Keyed(q)(r[a.value]);
    }
    if b.Some? {
      assert Keyed(q)(g[b.value]);
    }
  }

  /**
   * One `+=` on the dictionary: product `p` is present afterwards, its value grows by `v`,
   * and every other product keeps its presence and value.
   */
  lemma AccumulateMeaning(g: seq<Entry>, p: Product, v: real)
    requires DistinctProducts(g)
    ensures var r := Accumulate(g, p, v);
      && DistinctProducts(r)
      && (forall q :: Has(r, q) <==> Has(g, q) || q == p)
      && (forall q :: Lookup(r, q) == Lookup(g, q) + if q == p then v else 0.0)
  {
    var r := Accumulate(g, p, v);
    match First(g, Keyed(p))
    case Some(k) =>
      forall q ensures First(r, Keyed(q)) == First(g, Keyed(q)) {
        SameKeys(g, r, q);
      }
    case None =>
      assert forall i :: 0 <= i < |g| ==> g[i].0 != p;
      forall q ensures First(r, Keyed(q)) == if q == p then Some(|g|) else First(g, Keyed(q)) {
        FirstAppend(g, [(p, 0.0 + v)], Keyed(q));
      }
  }

  /**
   * The grouping has exactly the products that contribute, without repeats, and the value
   * of each is the sum of that product's contributions.
   */
  lemma {:induction false} GroupMeaning(items: seq<ReceiptItem>, c: Contribution)
    ensures var g := Group(items, c);
      && DistinctProducts(g)
      && (forall q :: Has(g, q) <==> Contributes(items, c, q))
      && (forall q :: Lookup(g, q) == SumFor(items, c, q))
  {
    if items != [] {
      var front := items[..|items| - 1];
      var item := items[|items| - 1];
      GroupMeaning(front, c);
      var g0 := Group(front, c);
      assert forall j :: 0 <= j < |front| ==> front[j] == items[j];
      forall q ensures Contributes(items, c, q) <==> Contributes(front, c, q) || (item.product == q && c(item).Some?) {
        if Contributes(items, c, q) && !(item.product == q && c(item).Some?) {
          var k :| 0 <= k < |items| && items[k].product == q && c(items[k]).Some?;
          assert k < |front|;
        }
      }
      if c(item).Some? {
        AccumulateMeaning(g0, item.product, c(item).value);
      }
    }
  }

  /** Each entry of a grouping without repeats holds its own product's sum. */
  lemma EntryValue(items: seq<ReceiptItem>, c: Contribution, k: nat)
    requires k < |Group(items, c)|
    ensures var g := Group(items, c);
      g[k].1 == SumFor(items, c, g[k].0) && Contributes(items, c, g[k].0)
  {
    var g := Group(items, c);
    GroupMeaning(items, c);
    var f := First(g, Keyed(g[k].0));
    assert Keyed(g[k].0)(g[k]);
    assert f.value == k;
  }

  // ---------------------------------------------------------------- the tops

  /** `sorted(products.items(), key=…, reverse=True)[:TOP_SIZE]`. */
  function Top(items: seq<ReceiptItem>, c: Contribution): seq<Entry>
  {
    var sorted := SortDesc(Group(items, c), Value);
    sorted[..Min(TopSize, |sorted|)]
  }

  /** Two places of a permutation of a sequence without repeated products hold different products. */
  lemma PermutationDistinct(g: seq<Entry>, s: seq<Entry>)
    requires DistinctProducts(g) && multiset(s) == multiset(g)
    ensures DistinctProducts(s)
  {
    forall i, j | 0 <= i < j < |s| ensures s[i].0 != s[j].0 {
      assert s[i] in multiset(g) && s[j] in multiset(g);
      var a :| 0 <= a < |g| && g[a] == s[i];
      var b :| 0 <= b < |g| && g[b] == s[j];
      if a == b {
        MultiplicityTwo(s, i, j);
        SingleOccurrence(g, s[i]);
      }
    }
  }

  lemma MultiplicityTwo<T>(s: seq<T>, i: nat, j: nat)
    requires i < j < |s| && s[i] == s[j]
    ensures multiset(s)[s[i]] >= 2
  {
    assert s == s[..i] + [s[i]] + s[i + 1..j] + [s[j]] + s[j + 1..];
  }

  lemma {:induction false} SingleOccurrence(g: seq<Entry>, e: Entry)
    requires DistinctProducts(g)
    ensures multiset(g)[e] <= 1
  {
    if g != [] {
      var rest := g[1..];
      assert g == [g[0]] + rest;
      assert DistinctProducts(rest) by {
        forall i, j | 0 <= i < j < |rest| ensures rest[i].0 != rest[j].0 {
          assert rest[i] == g[i + 1] && rest[j] == g[j + 1];
        }
      }
      SingleOccurrence(rest, e);
    }
  }

  /**
   * A top list has at most ten entries, largest value first, one per product, each
   * holding the sum of that product's contributions; every product left out has a
   * value no larger than any listed one.
   */
  lemma TopMeaning(items: seq<ReceiptItem>, c: Contribution)
    ensures var top := Top(items, c);
      var g := Group(items, c);
      && |top| == Min(TopSize, |g|)
      && SortedDesc(top, Value)
      && DistinctProducts(top)
      && (forall k :: 0 <= k < |top| ==> top[k].1 == SumFor(items, c, top[k].0) && Contributes(items, c, top[k].0))
      && (forall e :: e in g && e !in top ==> forall k :: 0 <= k < |top| ==> top[k].1 >= e.1)
  {
    var g := Group(items, c);
    GroupMeaning(items, c);
    var sorted := SortDesc(g, Value);
    SortDescMeaning(g, Value);
    PermutationDistinct(g, sorted);
    var n := Min(TopSize, |sorted|);
    var top := sorted[..n];
    forall k | 0 <= k < |top| ensures top[k].1 == SumFor(items, c, top[k].0) && Contributes(items, c, top[k].0) {
      assert top[k] in multiset(g);
      var a :| 0 <= a < |g| && g[a] == top[k];
      EntryValue(items, c, a);
    }
    LeftOutNotLarger(g, sorted, n);
  }

  /** What a cut of a sorted permutation leaves out is no larger than what it keeps. */
  lemma LeftOutNotLarger(g: seq<Entry>, sorted: seq<Entry>, n: nat)
    requires multiset(sorted) == multiset(g) && SortedDesc(sorted, Value) && n <= |sorted|
    ensures forall e :: e in g && e !in sorted[..n] ==> forall k :: 0 <= k < n ==> sorted[..n][k].1 >= e.1
  {
    forall e | e in g && e !in sorted[..n] ensures forall k :: 0 <= k < n ==> sorted[..n][k].1 >= e.1 {
      assert e in multiset(sorted);
      var j :| 0 <= j < |sorted| && sorted[j] == e;
    }
  }

  /** A contribution that passes over non-food items puts only food products on its top. */
  lemma FoodTopsSkipNonFood(items: seq<ReceiptItem>, c: Contribution)
    requires forall item: ReceiptItem :: c(item).Some? ==> IsFood(item.product)
    ensures forall k :: 0 <= k < |Top(items, c)| ==> IsFood(Top(items, c)[k].0)
  {
    TopMeaning(items, c);
  }

  /** `_get_top_by_total`: every item adds its total. */
  function TotalContribution(item: ReceiptItem): Option<real>
  {
    Some(item.total)
  }

  /** `_get_top_by_weight`: food items add quantity × package weight, in kilograms. */
  function WeightContribution(item: ReceiptItem): Option<real>
  {
    if !IsFood(item.product) then None
    else Some(item.quantity * item.product.food.value.weight as real / 1000.0)
  }

  /** `item.<nutrient> / divisor` for food items, others passed over. */
  function NutrientContribution(n: Nutrient, divisor: real): Contribution
    requires divisor != 0.0
  {
    (item: ReceiptItem) =>
      if !IsFood(item.product) then None else Some(ItemFoodValue(item, n).value / divisor)
  }

  lemma NutrientContributionFoodOnly(n: Nutrient, divisor: real)
    requires divisor != 0.0
    ensures forall item: ReceiptItem :: NutrientContribution(n, divisor)(item).Some? ==> IsFood(item.product)
  {
  }

  /** The loop that fills the dictionary, then the sort and the cut. */
  method GetTop(items: seq<ReceiptItem>, c: Contribution) returns (top: seq<Entry>)
    ensures top == Top(items, c)
  {
    var products: seq<Entry> := [];
    var i := 0;
    while i < |items|
      invariant 0 <= i <= |items|
      invariant products == Group(items[..i], c)
    {
      var item := items[i];
      assert items[..i + 1][..i] == items[..i];
      var v := c(item);
      if v.Some? {
        var k := First(products, Keyed(item.product));
        if k.Some? {
          products := products[k.value := (item.product, products[k.value].1 + v.value)];
        } else {
          products := products + [(item.product, 0.0 + v.value)];
        }
      }
      i := i + 1;
    }
    assert items[..i] == items;
    var sorted := SortDesc(products, Value);
    top := sorted[..Min(TopSize, |sorted|)];
  }

  method TopByTotal(items: seq<ReceiptItem>) returns (top: seq<Entry>)
    ensures top == Top(items, TotalContribution)
  {
    top := GetTop(items, TotalContribution);
  }

  method TopByWeight(items: seq<ReceiptItem>) returns (top: seq<Entry>)
    ensures top == Top(items, WeightContribution)
  {
    top := GetTop(items, WeightContribution);
  }

  method TopByProtein(items: seq<ReceiptItem>) returns (top: seq<Entry>)
    ensures top == Top(items, NutrientContribution(Protein, 1000.0))
  {
    top := GetTop(items, NutrientContribution(Protein, 1000.0));
  }

  method TopByFat(items: seq<ReceiptItem>) returns (top: seq<Entry>)
    ensures top == Top(items, NutrientContribution(Fat, 1000.0))
  {
    top := GetTop(items, NutrientContribution(Fat, 1000.0));
  }

  method TopByCarbohydrate(items: seq<ReceiptItem>) returns (top: seq<Entry>)
    ensures top == Top(items, NutrientContribution(Carbohydrate, 1000.0))
  {
    top := GetTop(items, NutrientContribution(Carbohydrate, 1000.0));
  }

  method TopByCalories(items: seq<ReceiptItem>) returns (top: seq<Entry>)
    ensures top == Top(items, NutrientContribution(Calories, 1000.0))
  {
    top := GetTop(items, NutrientContribution(Calories, 1000.0));
  }

  // ---------------------------------------------------------------- the summary

  /** `_FoodStats` and `_NonFoodStats`; the latter's nutrition columns read as `None`. */
  datatype Stats =
    | FoodStats(protein: real, fat: real, carbohydrate: real, calories: real, total: real)
    | NonFoodStats(total: real)

  /** The statistics object created at a product's first item: food or non-food by the product. */
  function NewStats(p: Product): Stats
  {
    if IsFood(p) then FoodStats(0.0, 0.0, 0.0, 0.0, 0.0) else NonFoodStats(0.0)
  }

  /** `stats.add(item)`: food statistics add all five columns, non-food ones only the total. */
  function AddItem(s: Stats, item: ReceiptItem): (r: Stats)
    requires s.FoodStats? ==> IsFood(item.product)
    ensures r.FoodStats? <==> s.FoodStats?
  {
    match s
    case FoodStats(protein, fat, carbohydrate, calories, total) =>
      FoodStats(protein + ItemFoodValue(item, Protein).value, fat + ItemFoodValue(item, Fat).value,
                carbohydrate + ItemFoodValue(item, Carbohydrate).value,
                calories + ItemFoodValue(item, Calories).value / 1000.0, total + item.total)
    case NonFoodStats(total) => NonFoodStats(total + item.total)
  }

  type Row = (Product, Stats)

  function RowOf(p: Product): Row -> bool
  {
    (r: Row) => r.0 == p
  }

  /** `_get_summary`: the dictionary from product to statistics after the loop over `items`. */
  function Summary(items: seq<ReceiptItem>): (rows: seq<Row>)
    ensures forall k :: 0 <= k < |rows| ==> (rows[k].1.FoodStats? <==> IsFood(rows[k].0))
  {
    if items == [] then []
    else
      var rows := Summary(items[..|items| - 1]);
      var item := items[|items| - 1];
      match First(rows, RowOf(item.product))
      case Some(k) => rows[k := (item.product, AddItem(rows[k].1, item))]
      case None => rows + [(item.product, AddItem(NewStats(item.product), item))]
  }

  /** The loop of `_get_summary`. */
  method GetSummary(items: seq<ReceiptItem>) returns (rows: seq<Row>)
    ensures rows == Summary(items)
  {
    rows := [];
    var i := 0;
    while i < |items|
      invariant 0 <= i <= |items|
      invariant rows == Summary(items[..i])
    {
      var item := items[i];
      assert items[..i + 1][..i] == items[..i];
      var k := First(rows, RowOf(item.product));
      if k.Some? {
        rows := rows[k.value := (item.product, AddItem(rows[k.value].1, item))];
      } else {
        rows := rows + [(item.product, AddItem(NewStats(item.product), item))];
      }
      i := i + 1;
    }
    assert items[..i] == items;
  }

  /** The columns `getattr(stats, key)` reads. */
  function ColumnValue(s: Stats, key: string): Option<real>
  {
    if key == "total" then Some(s.total)
    else if s.NonFoodStats? then None
    else if key == "protein" then Some(s.protein)
    else if key == "fat" then Some(s.fat)
    else if key == "carbohydrate" then Some(s.carbohydrate)
    else if key == "calories" then Some(s.calories)
    else None
  }

  /** The keys of `COLUMNS`. */
  const ColumnKeys: seq<string> := ["protein", "fat", "carbohydrate", "calories", "total"]

  /** `getattr(pair[1], key) or 0`. */
  function SortValue(key: string): Row -> real
  {
    (r: Row) => match ColumnValue(r.1, key) case Some(v) => v case None => 0.0
  }

  /** The optional re-sort by the `sort` request parameter. */
  function SortSummary(rows: seq<Row>, key: Option<string>): seq<Row>
  {
    if key.Some? && key.value in ColumnKeys then SortDesc(rows, SortValue(key.value)) else rows
  }

  /**
   * Only a `COLUMNS` key re-sorts the summary: then it comes largest first by that column,
   * a missing column counting as 0, and holds the same rows; any other key, or none,
   * leaves the first-seen order.
   */
  lemma SortSummaryMeaning(rows: seq<Row>, key: Option<string>)
    ensures key.Some? && key.value in ColumnKeys ==>
      && multiset(SortSummary(rows, key)) == multiset(rows)
      && SortedDesc(SortSummary(rows, key), SortValue(key.value))
    ensures !(key.Some? && key.value in ColumnKeys) ==> SortSummary(rows, key) == rows
  {
    if key.Some? && key.value in ColumnKeys {
      SortDescMeaning(rows, SortValue(key.value));
    }
  }

  /** No item of `p` among `items`: every sum for `p` is zero. */
  lemma {:induction false} AbsentSumsToZero(items: seq<ReceiptItem>, c: Contribution, p: Product)
    requires forall j :: 0 <= j < |items| ==> items[j].product != p
    ensures SumFor(items, c, p) == 0.0
  {
    if items != [] {
      AbsentSumsToZero(items[..|items| - 1], c, p);
    }
  }

  /** Each summary row's columns as sums over that product's items. */
  predicate RowSums(items: seq<ReceiptItem>, r: Row)
  {
    && r.1.total == SumFor(items, TotalContribution, r.0)
    && (r.1.FoodStats? ==>
         && r.1.protein == SumFor(items, NutrientContribution(Protein, 1.0), r.0)
         && r.1.fat == SumFor(items, NutrientContribution(Fat, 1.0), r.0)
         && r.1.carbohydrate == SumFor(items, NutrientContribution(Carbohydrate, 1.0), r.0)
         && r.1.calories == SumFor(items, NutrientContribution(Calories, 1000.0), r.0))
  }

  /** A later item of another product leaves a row's sums as they were. */
  lemma OtherItemKeepsSums(items: seq<ReceiptItem>, r: Row)
    requires items != [] && items[|items| - 1].product != r.0 && RowSums(items[..|items| - 1], r)
    ensures RowSums(items, r)
  {
  }

  /** An item of the row's own product adds its amounts to the row's sums. */
  lemma OwnItemAddsToSums(items: seq<ReceiptItem>, r: Row)
    requires items != [] && items[|items| - 1].product == r.0 && RowSums(items[..|items| - 1], r)
    requires r.1.FoodStats? ==> IsFood(r.0)
    ensures RowSums(items, (r.0, AddItem(r.1, items[|items| - 1])))
  {
  }

  /**
   * The summary has one row per product, in the order the products first occur, the
   * same products as the grouping by total; each row is food statistics exactly for a
   * food product, and its columns are the sums over that product's items.
   */
  lemma {:induction false} SummaryMeaning(items: seq<ReceiptItem>)
    ensures var rows := Summary(items);
      var g := Group(items, TotalContribution);
      && |rows| == |g|
      && (forall k :: 0 <= k < |rows| ==> rows[k].0 == g[k].0 && RowSums(items, rows[k]))
  {
    if items != [] {
      var front := items[..|items| - 1];
      var item := items[|items| - 1];
      SummaryMeaning(front);
      GroupMeaning(front, TotalContribution);
      var rows0, g0 := Summary(front), Group(front, TotalContribution);
      var rows, g := Summary(items), Group(items, TotalContribution);
      var p := item.product;
      assert First(rows0, RowOf(p)) == First(g0, Keyed(p)) by {
        var a, b := First(rows0, RowOf(p)), First(g0, Keyed(p));
        if a.Some? { assert Keyed(p)(g0[a.value]); }
        if b.Some? { assert RowOf(p)(rows0[b.value]); }
      }
      match First(rows0, RowOf(p))
      case Some(k) =>
        forall j | 0 <= j < |rows| ensures rows[j].0 == g[j].0 && RowSums(items, rows[j]) {
          if j == k {
            OwnItemAddsToSums(items, rows0[k]);
          } else {
            assert rows0[j].0 != p;
            OtherItemKeepsSums(items, rows0[j]);
          }
        }
      case None =>
        assert forall j :: 0 <= j < |front| ==> front[j].product != p by {
          forall j | 0 <= j < |front| ensures front[j].product != p {
            assert Contributes(front, TotalContribution, front[j].product) by {
              assert TotalContribution(front[j]).Some?;
            }
          }
        }
        var first := (p, NewStats(p));
        AbsentSumsToZero(front, TotalContribution, p);
        AbsentSumsToZero(front, NutrientContribution(Protein, 1.0), p);
        AbsentSumsToZero(front, NutrientContribution(Fat, 1.0), p);
        AbsentSumsToZero(front, NutrientContribution(Carbohydrate, 1.0), p);
        AbsentSumsToZero(front, NutrientContribution(Calories, 1000.0), p);
        forall j | 0 <= j < |rows| ensures rows[j].0 == g[j].0 && RowSums(items, rows[j]) {
          if j == |rows0| {
            OwnItemAddsToSums(items, first);
          } else {
            assert rows0[j].0 != p;
            OtherItemKeepsSums(items, rows0[j]);
          }
        }
    }
  }

  // ---------------------------------------------------------------- the suggested balance

  /** `all((receipt.protein, receipt.fat, receipt.carbohydrate))`: all three present and non-zero. */
  predicate Balanced(items: seq<ReceiptItem>)
  {
    && ReceiptFoodValue(items, Protein).Some? && ReceiptFoodValue(items, Protein).value != 0.0
    && ReceiptFoodValue(items, Fat).Some? && ReceiptFoodValue(items, Fat).value != 0.0
    && ReceiptFoodValue(items, Carbohydrate).Some? && ReceiptFoodValue(items, Carbohydrate).value != 0.0
  }

  /** The sum of protein, fat and carbohydrate over the receipts that have all three. */
  function BalancedTotal(receipts: seq<seq<ReceiptItem>>): real
  {
    if receipts == [] then 0.0
    else
      var items := receipts[0];
      var here := if Balanced(items) then
          ReceiptFoodValue(items, Protein).value + ReceiptFoodValue(items, Fat).value + ReceiptFoodValue(items, Carbohydrate).value
        else 0.0;
      here + BalancedTotal(receipts[1..])
  }

  datatype FoodTarget = FoodTarget(protein: real, fat: real, carbohydrate: real)

  /**
   * `_get_food_should_be`, each receipt given by its items: protein and fat are a sixth of
   * the balanced total each, and carbohydrate four times that, so the three add up to it.
   */
  function FoodShouldBe(receipts: seq<seq<ReceiptItem>>): (r: FoodTarget)
    ensures r.protein == r.fat && r.carbohydrate == 4.0 * r.protein
    ensures r.protein + r.fat + r.carbohydrate == BalancedTotal(receipts)
  {
    var part := BalancedTotal(receipts) / 6.0;
    FoodTarget(part, part, part * 4.0)
  }

  /** A receipt missing one of the three nutrients, or with one of them zero, adds nothing. */
  lemma UnbalancedIgnored(receipts: seq<seq<ReceiptItem>>, items: seq<ReceiptItem>)
    requires !Balanced(items)
    ensures BalancedTotal([items] + receipts) == BalancedTotal(receipts)
  {
    assert ([items] + receipts)[1..] == receipts;
  }
}
