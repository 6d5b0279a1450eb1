/**
 * The stored entities and the values derived from them: display names with their
 * fallbacks, whether a product has been classified as food or non-food, the nutrition
 * of an item, and the per-receipt sums over its items.
 */
module Models {
  import opened Base
  import Decimals

  // ---------------------------------------------------------------- sellers

  /** A seller: its tax id, the name the receipt gave and an optional name set by hand. */
  datatype Seller = Seller(individualNumber: string, originalName: string, userFriendlyName: Option<string>)

  /** Python truthiness of a nullable text column: present and not empty. */
  predicate Truthy(s: Option<string>)
  {
    s.Some? && s.value != ""
  }

  /** `Seller.name`. */
  function SellerName(s: Seller): string
  {
    if Truthy(s.userFriendlyName) then s.userFriendlyName.value else s.originalName
  }

  /**
   * A hand-set name wins over the name from the receipt, but a blank one does not: the
   * seller then shows its original name.
   */
  lemma SellerNameFallback(s: Seller)
    ensures SellerName(s) == s.originalName <== !Truthy(s.userFriendlyName)
    ensures SellerName(s) != "" <== s.originalName != "" || Truthy(s.userFriendlyName)
    ensures Truthy(s.userFriendlyName) ==> SellerName(s) == s.userFriendlyName.value
  {
  }

  // ---------------------------------------------------------------- products

  /** What a food product carries, per one hundred grams, and its weight in grams. */
  datatype FoodProduct = FoodProduct(calories: nat, protein: real, fat: real, carbohydrate: real, weight: nat)

  datatype Nutrient = Protein | Fat | Carbohydrate | Calories

  function PerHundredGrams(f: FoodProduct, n: Nutrient): real
  {
    match n
    case Protein => f.protein
    case Fat => f.fat
    case Carbohydrate => f.carbohydrate
    case Calories => f.calories as real
  }

  /**
   * `FoodProduct.total_protein`, `total_fat` and `total_carbohydrate`: the amount in the
   * whole package. For calories this is the exact amount, which `total_calories` rounds.
   */
  function PackageTotal(f: FoodProduct, n: Nutrient): (r: real)
    ensures f.weight == 100 ==> r == PerHundredGrams(f, n)
    ensures f.weight == 0 ==> r == 0.0
    ensures 0.0 <= PerHundredGrams(f, n) ==> 0.0 <= r
  {
    PerHundredGrams(f, n) * f.weight as real / 100.0
  }

  /**
   * `FoodProduct.total_calories`: `round(calories * weight / 100)`, Python's `round`
   * taking a tie to the even neighbour.
   */
  function TotalCalories(f: FoodProduct): (c: nat)
  {
    Decimals.RoundHalfEven(f.calories * f.weight, 100)
  }

  /**
   * The rounded calories are the integer nearest to the exact package total, within
   * half a calorie, and even when the total lies halfway between two integers.
   */
  lemma TotalCaloriesNearest(f: FoodProduct)
    ensures var c, exact := TotalCalories(f), PackageTotal(f, Calories);
      && -0.5 <= c as real - exact <= 0.5
      && (c as real - exact == 0.5 || exact - c as real == 0.5 ==> c % 2 == 0)
  {
    var n := f.calories * f.weight;
    var c := TotalCalories(f);
    var exact := PackageTotal(f, Calories);
    assert exact == n as real / 100.0;
    assert c as real - exact == (c * 100 - n) as real / 100.0;
    assert 2 * Decimals.Dist(c * 100, n) <= 100;
  }

  /**
   * A product: its id, an optional hand-set name, an optional barcode, the names of its
   * aliases in the order the database lists them, and the food or non-food record that
   * classifies it, either of which may be absent.
   */
  datatype Product = Product(
    id: nat,
    userFriendlyName: Option<string>,
    barcode: Option<string>,
    aliases: seq<string>,
    food: Option<FoodProduct>,
    nonFood: bool)

  /** `Product.name`. */
  function ProductName(p: Product): string
  {
    if Truthy(p.userFriendlyName) then p.userFriendlyName.value
    else if |p.aliases| > 0 then p.aliases[0]
    else "?"
  }

  /**
   * The hand-set name first, then the first alias, then "?": a product with no usable
   * name and no alias still shows something, and one with an alias shows its first one.
   */
  lemma ProductNameFallback(p: Product)
    ensures Truthy(p.userFriendlyName) ==> ProductName(p) == p.userFriendlyName.value
    ensures !Truthy(p.userFriendlyName) && |p.aliases| > 0 ==> ProductName(p) == p.aliases[0]
    ensures !Truthy(p.userFriendlyName) && |p.aliases| == 0 ==> ProductName(p) == "?"
    ensures (forall k :: 0 <= k < |p.aliases| ==> p.aliases[k] != "") ==> ProductName(p) != ""
  {
  }

  predicate IsFood(p: Product) { p.food.Some? }

  predicate IsNonFood(p: Product) { p.nonFood }

  /** `is_checked`: the product has been classified one way or the other. */
  predicate IsChecked(p: Product) { IsFood(p) || IsNonFood(p) }

  datatype Details = FoodDetails(food: FoodProduct) | NonFoodDetails

  /** `Product.details`: the food record if there is one, else the non-food mark, else `None`. */
  function ProductDetails(p: Product): (d: Option<Details>)
    ensures d.Some? <==> IsChecked(p)
    ensures IsFood(p) ==> d == Some(FoodDetails(p.food.value))
    ensures d == Some(NonFoodDetails) <==> !IsFood(p) && IsNonFood(p)
  {
    if IsFood(p) then Some(FoodDetails(p.food.value))
    else if IsNonFood(p) then Some(NonFoodDetails)
    else None
  }

  // ---------------------------------------------------------------- copy_from

  /** The two nullable columns `copy_from` visits, in its order. */
  datatype Column = UserFriendlyNameColumn | BarcodeColumn

  const CopiedColumns: seq<Column> := [UserFriendlyNameColumn, BarcodeColumn]

  function Get(p: Product, c: Column): Option<string>
  {
    match c
    case UserFriendlyNameColumn => p.userFriendlyName
    case BarcodeColumn => p.barcode
  }

  function Set(p: Product, c: Column, v: Option<string>): (r: Product)
    ensures Get(r, c) == v
    ensures forall d :: d != c ==> Get(r, d) == Get(p, d)
    ensures r.(userFriendlyName := p.userFriendlyName, barcode := p.barcode) == p
  {
    match c
    case UserFriendlyNameColumn => p.(userFriendlyName := v)
    case BarcodeColumn => p.(barcode := v)
  }

  /** One column of `copy_from`: filled from `other` only when it is `None` here and not there. */
  function CopyColumn(p: Product, other: Product, c: Column): Product
  {
    if Get(p, c).None? && Get(other, c).Some? then Set(p, c, Get(other, c)) else p
  }

  /** The columns in `cs` visited in order. */
  function CopyColumns(p: Product, other: Product, cs: seq<Column>): Product
  {
    if cs == [] then p else CopyColumn(CopyColumns(p, other, cs[..|cs| - 1]), other, cs[|cs| - 1])
  }

  /** A column reads as `mine` unless that is `None`, when it takes `theirs`. */
  function Filled(mine: Option<string>, theirs: Option<string>): Option<string>
  {
    if mine.None? then theirs else mine
  }

  /**
   * After `copy_from`, each of the two columns is what it was if it was set, and the
   * other product's value if it was `None`; nothing else about the product changes.
   */
  lemma CopyFills(p: Product, other: Product)
    ensures var r := CopyColumns(p, other, CopiedColumns);
      && r.userFriendlyName == Filled(p.userFriendlyName, other.userFriendlyName)
      && r.barcode == Filled(p.barcode, other.barcode)
      && r.(userFriendlyName := p.userFriendlyName, barcode := p.barcode) == p
  {
    var cs := CopiedColumns;
    assert cs[..|cs| - 1] == [UserFriendlyNameColumn] && cs[|cs| - 1] == BarcodeColumn;
    var first := CopyColumn(p, other, UserFriendlyNameColumn);
    assert CopyColumns(p, other, cs[..|cs| - 1]) == first by {
      assert [UserFriendlyNameColumn][..0] == [];
    }
    assert CopyColumns(p, other, cs) == CopyColumn(first, other, BarcodeColumn);
  }

  /** `copy_from` reports a change exactly when some column was `None` here and set there. */
  lemma CopyChanges(p: Product, other: Product)
    ensures CopyColumns(p, other, CopiedColumns) != p <==>
      exists c: Column :: Get(p, c).None? && Get(other, c).Some?
  {
    CopyFills(p, other);
    var r := CopyColumns(p, other, CopiedColumns);
    if r != p {
      if r.userFriendlyName != p.userFriendlyName {
        assert Get(p, UserFriendlyNameColumn).None? && Get(other, UserFriendlyNameColumn).Some?;
      } else {
        assert Get(p, BarcodeColumn).None? && Get(other, BarcodeColumn).Some?;
      }
    } else {
      forall c: Column ensures !(Get(p, c).None? && Get(other, c).Some?) {
        assert Get(r, c) == Get(p, c);
      }
    }
  }

  /** Copying a second time from the same product changes nothing. */
  lemma CopyIdempotent(p: Product, other: Product)
    ensures var once := CopyColumns(p, other, CopiedColumns);
      CopyColumns(once, other, CopiedColumns) == once
  {
    var once := CopyColumns(p, other, CopiedColumns);
    CopyFills(p, other);
    CopyFills(once, other);
  }

  /** A Django model instance of a product, whose columns `copy_from` overwrites in place. */
  class ProductInstance {
    var row: Product

    constructor(row: Product)
      ensures this.row == row
    {
      this.row := row;
    }

    /** `Product.copy_from`: the loop over the two columns with its `changed` flag. */
    method CopyFrom(other: Product) returns (changed: bool)
      modifies this
      ensures row == CopyColumns(old(row), other, CopiedColumns)
      ensures changed <==> row != old(row)
    {
      changed := false;
      var i := 0;
      while i < |CopiedColumns|
        invariant 0 <= i <= |CopiedColumns|
        invariant row == CopyColumns(old(row), other, CopiedColumns[..i])
        invariant forall c: Column :: Get(row, c).None? ==> Get(old(row), c).None?
        invariant row.(userFriendlyName := old(row).userFriendlyName, barcode := old(row).barcode) == old(row)
        invariant changed <==> row != old(row)
      {
        var column := CopiedColumns[i];
        if Get(row, column).None? {
          var value := Get(other, column);
          if value.Some? {
            row := Set(row, column, value);
            changed := true;
          }
        }
        assert CopiedColumns[..i + 1][..i] == CopiedColumns[..i];
        i := i + 1;
      }
      assert CopiedColumns[..i] == CopiedColumns;
    }
  }

  // ---------------------------------------------------------------- receipt items and receipts

  /** A receipt item as the reports read it: its alias's product and the three amounts. */
  datatype ReceiptItem = ReceiptItem(product: Product, price: real, quantity: real, total: real)

  /**
   * `ReceiptItem.protein` and the like: `None` for a product that is not food, else the
   * per-hundred-grams value scaled to the package weight. This is the package total
   * for all four values; for calories it is not rounded, unlike `total_calories`.
   */
  function ItemFoodValue(item: ReceiptItem, n: Nutrient): (v: Option<real>)
    ensures v.None? <==> !IsFood(item.product)
    ensures v.Some? ==> v.value == PackageTotal(item.product.food.value, n)
  {
    if !IsFood(item.product) then None
    else
      var f := item.product.food.value;
      Some(PerHundredGrams(f, n) * f.weight as real / 100.0)
  }

  /** The values that are there, in order: `[v for v in values if v is not None]`. */
  function Present(values: seq<Option<real>>): (r: seq<real>)
    ensures |r| <= |values|
    ensures |r| == 0 <==> forall k :: 0 <= k < |values| ==> values[k].None?
  {
    if values == [] then []
    else
      var rest := Present(values[1..]);
      assert forall k :: 1 <= k < |values| ==> values[k] == values[1..][k - 1];
      if values[0].Some? then [values[0].value] + rest else rest
  }

  function Sum(xs: seq<real>): real
  {
    if xs == [] then 0.0 else xs[0] + Sum(xs[1..])
  }

  /** Each item's value in turn. */
  function ItemValues(items: seq<ReceiptItem>, n: Nutrient): (r: seq<Option<real>>)
    ensures |r| == |items| && forall k :: 0 <= k < |items| ==> r[k] == ItemFoodValue(items[k], n)
  {
    seq(|items|, k requires 0 <= k < |items| => ItemFoodValue(items[k], n))
  }

  /** `Receipt._get_food_value`: the sum of the values that are there, or `None` if none is. */
  function ReceiptFoodValue(items: seq<ReceiptItem>, n: Nutrient): Option<real>
  {
    var values := Present(ItemValues(items, n));
    if |values| > 0 then Some(Sum(values)) else None
  }

  /** The reference sum: the package totals of the food items, one by one. */
  function FoodItemsTotal(items: seq<ReceiptItem>, n: Nutrient): real
  {
    if items == [] then 0.0
    else
      var first := if IsFood(items[0].product) then PackageTotal(items[0].product.food.value, n) else 0.0;
      first + FoodItemsTotal(items[1..], n)
  }

  lemma {:induction false} PresentSum(items: seq<ReceiptItem>, n: Nutrient)
    ensures Sum(Present(ItemValues(items, n))) == FoodItemsTotal(items, n)
  {
    if items != [] {
      assert ItemValues(items, n)[1..] == ItemValues(items[1..], n);
      PresentSum(items[1..], n);
    }
  }

  /**
   * A receipt's nutrient is `None` exactly when none of its items is food, and otherwise
   * the total over its food items, non-food items counting for nothing.
   */
  lemma ReceiptFoodValueMeaning(items: seq<ReceiptItem>, n: Nutrient)
    ensures ReceiptFoodValue(items, n).None? <==> forall k :: 0 <= k < |items| ==> !IsFood(items[k].product)
    ensures ReceiptFoodValue(items, n).Some? ==> ReceiptFoodValue(items, n).value == FoodItemsTotal(items, n)
  {
    PresentSum(items, n);
  }

  /** `non_checked_product_count`: the items whose product is not yet classified. */
  function NonCheckedCount(items: seq<ReceiptItem>): (n: nat)
    ensures n <= |items|
    ensures n == 0 <==> forall k :: 0 <= k < |items| ==> IsChecked(items[k].product)
    ensures n == |items| <==> forall k :: 0 <= k < |items| ==> !IsChecked(items[k].product)
  {
    if items == [] then 0
    else
      var rest := NonCheckedCount(items[1..]);
      assert forall k :: 1 <= k < |items| ==> items[k] == items[1..][k - 1];
      (if IsChecked(items[0].product) then 0 else 1) + rest
  }
}
