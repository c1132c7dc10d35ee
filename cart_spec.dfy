/**
 * Value-level specification of the supermarket cart: snapshots of the catalog
 * and of the cart, and the effect of `addProduct` and `deleteProduct` on them.
 * The classes in module Supermarket are proved to follow these functions.
 */
module CartSpec {
  import opened Wrappers

  /** A snapshot of one catalog product: its identity, price, category and stock. */
  datatype Item = Item(sku: string, name: string, price: nat, category: string, stock: nat)

  /** One line of the cart: the SKU, the product name copied when the line was created, and the quantity. */
  datatype Line = Line(sku: string, name: string, quantity: nat)

  /** Why `deleteProduct` rejects. */
  datatype CartError =
    | ProductNotFound(sku: string)  // the catalog lookup failed
    | NotInCart(sku: string)        // the product exists but has no line in the cart

  /** The whole observable state: catalog, cart lines, category set and running total. */
  datatype State = State(items: seq<Item>, lines: seq<Line>, categories: set<string>, total: nat)

  /** A new product; the stock defaults to 10 as in the catalog's constructor. */
  function NewItem(sku: string, name: string, price: nat, category: string, stock: nat := 10): (r: Item)
  {
    Item(sku, name, price, category, stock)
  }

  /** The seed catalog the program starts from. */
  const SupermarketProducts: seq<Item> := [
    NewItem("KS944RUR", "Queso", 10, "lacteos", 4),
    NewItem("FN312PPE", "Gaseosa", 5, "bebidas"),
    NewItem("PV332MJ", "Cerveza", 20, "bebidas"),
    NewItem("XX92LKI", "Arroz", 7, "alimentos", 20),
    NewItem("UI999TY", "Fideos", 5, "alimentos"),
    NewItem("RT324GD", "Lavandina", 9, "limpieza"),
    NewItem("OL883YE", "Shampoo", 3, "higiene", 50),
    NewItem("WE328NJ", "Jabon", 4, "higiene", 3)
  ]

  /** The cart a session starts with. */
  const EmptyCart: State := State(SupermarketProducts, [], {}, 0)

  /** Reduces a requested quantity to what is available. */
  function Clamp(requested: nat, available: nat): (r: nat)
    ensures r <= requested && r <= available
    ensures r == requested || r == available
  {
    if available < requested then available else requested
  }

  /** Index of the first catalog item with the given SKU (a linear search). */
  function FindItem(items: seq<Item>, sku: string): (r: Option<nat>)
    ensures r.Some? ==> r.value < |items| && items[r.value].sku == sku
    ensures forall j :: 0 <= j < |items| && (r.None? || j < r.value) ==> items[j].sku != sku
  {
    if items == [] then None
    else if items[0].sku == sku then Some(0)
    else match FindItem(items[1..], sku)
      case None => None
      case Some(i) => Some(i + 1)
  }

  /** Index of the first cart line with the given SKU (a linear search). */
  function FindLine(lines: seq<Line>, sku: string): (r: Option<nat>)
    ensures r.Some? ==> r.value < |lines| && lines[r.value].sku == sku
    ensures forall j :: 0 <= j < |lines| && (r.None? || j < r.value) ==> lines[j].sku != sku
  {
    if lines == [] then None
    else if lines[0].sku == sku then Some(0)
    else match FindLine(lines[1..], sku)
      case None => None
      case Some(j) => Some(j + 1)
  }

  /** The quantity of the first line for `sku`; None when the cart has no such line. */
  function QuantityInCart(lines: seq<Line>, sku: string): (r: Option<nat>)
    ensures r.None? <==> forall j :: 0 <= j < |lines| ==> lines[j].sku != sku
    ensures r.Some? ==> exists j :: 0 <= j < |lines| && lines[j].sku == sku && lines[j].quantity == r.value
    ensures r.Some? ==> FindLine(lines, sku).Some? && r.value == lines[FindLine(lines, sku).value].quantity
  {
    match FindLine(lines, sku)
    case None => None
    case Some(j) => Some(lines[j].quantity)
  }

  /** The catalog with the stock of item `i` replaced. */
  function SetStock(items: seq<Item>, i: nat, stock: nat): (r: seq<Item>)
    requires i < |items|
  {
    items[i := items[i].(stock := stock)]
  }

  /** The cart lines with the quantity of line `j` replaced. */
  function SetQuantity(lines: seq<Line>, j: nat, quantity: nat): (r: seq<Line>)
    requires j < |lines|
  {
    lines[j := lines[j].(quantity := quantity)]
  }

  /** The catalog has a product with this SKU. */
  ghost predicate Listed(items: seq<Item>, sku: string)
  {
    FindItem(items, sku).Some?
  }

  /** Every cart line names a product of the catalog. */
  ghost predicate InCatalog(lines: seq<Line>, items: seq<Item>)
  {
    forall k {:trigger Listed(items, lines[k].sku)} :: 0 <= k < |lines| ==> Listed(items, lines[k].sku)
  }

  /** No two catalog items share a SKU. */
  ghost predicate CatalogUnique(items: seq<Item>)
  {
    forall a, b :: 0 <= a < b < |items| ==> items[a].sku != items[b].sku
  }

  /** No two cart lines share a SKU. */
  ghost predicate LinesUnique(lines: seq<Line>)
  {
    forall a, b :: 0 <= a < b < |lines| ==> lines[a].sku != lines[b].sku
  }

  /** No cart line has quantity 0. */
  ghost predicate NoEmptyLines(lines: seq<Line>)
  {
    forall j :: 0 <= j < |lines| ==> lines[j].quantity != 0
  }

  /**
   * Catalog price of a product, found by SKU. A SKU missing from the catalog has no price;
   * 0 stands in for it here, and `Inv` rules such lines out of every reachable cart.
   */
  function PriceOf(items: seq<Item>, sku: string): (r: nat)
  {
    match FindItem(items, sku)
    case Some(i) => items[i].price
    case None => 0
  }

  /** Catalog category of a product, found by SKU (the empty string stands in for a missing SKU). */
  function CategoryOf(items: seq<Item>, sku: string): (r: string)
  {
    match FindItem(items, sku)
    case Some(i) => items[i].category
    case None => ""
  }

  /** The categories of the products that have a line in the cart. */
  function LineCategories(lines: seq<Line>, items: seq<Item>): (r: set<string>)
  {
    if lines == [] then {}
    else LineCategories(lines[..|lines| - 1], items) + {CategoryOf(items, lines[|lines| - 1].sku)}
  }

  /** `cleanCategories`: keeps the categories that some remaining line still has. */
  function CleanCategories(categories: set<string>, lines: seq<Line>, items: seq<Item>): (r: set<string>)
  {
    categories * LineCategories(lines, items)
  }

  /** `calculateTotalPrice`: the sum over the lines of quantity times catalog price, accumulated left to right. */
  function TotalPrice(lines: seq<Line>, items: seq<Item>): (r: nat)
  {
    if lines == [] then 0
    else
      var last := lines[|lines| - 1];
      TotalPrice(lines[..|lines| - 1], items) + last.quantity * PriceOf(items, last.sku)
  }

  /** The lines whose quantity is not 0, in their original order (the filter of `deleteProduct`). */
  function RemoveEmpty(lines: seq<Line>): (r: seq<Line>)
  {
    if lines == [] then []
    else
      var kept := RemoveEmpty(lines[..|lines| - 1]);
      var last := lines[|lines| - 1];
      if last.quantity == 0 then kept else kept + [last]
  }

  /** Units of `sku` held in the cart, over all lines. */
  function Units(lines: seq<Line>, sku: string): (r: nat)
  {
    if lines == [] then 0
    else
      var last := lines[|lines| - 1];
      Units(lines[..|lines| - 1], sku) + (if last.sku == sku then last.quantity else 0)
  }

  /** Units of `sku` in stock, over all catalog items. */
  function Stock(items: seq<Item>, sku: string): (r: nat)
  {
    if items == [] then 0
    else
      var last := items[|items| - 1];
      Stock(items[..|items| - 1], sku) + (if last.sku == sku then last.stock else 0)
  }

  /**
   * The invariant every reachable cart keeps: SKUs unique in catalog and cart, every line in the
   * catalog, the category set equal to the categories of the lines, and the total equal to the
   * sum of quantity times price.
   */
  ghost predicate Inv(s: State)
  {
    && CatalogUnique(s.items)
    && LinesUnique(s.lines)
    && InCatalog(s.lines, s.items)
    && s.categories == LineCategories(s.lines, s.items)
    && s.total == TotalPrice(s.lines, s.items)
  }

  /**
   * `addProduct`: an unknown SKU changes nothing (the lookup error is swallowed); otherwise the
   * request is clamped to the stock, the stock is decreased, the quantity is merged into the
   * existing line or a new line is appended, the category is recorded and the total grows.
   */
  function AddSpec(s: State, sku: string, quantity: nat): (r: State)
  {
    match FindItem(s.items, sku)
    case None => s
    case Some(i) =>
      var product := s.items[i];
      var added := Clamp(quantity, product.stock);
      State(SetStock(s.items, i, product.stock - added), AddToLines(s.lines, sku, product.name, added),
            s.categories + {product.category}, s.total + product.price * added)
  }

  /** The lines after `added` units of `sku` go into the cart: merged into its line, or appended as a new one. */
  function AddToLines(lines: seq<Line>, sku: string, name: string, added: nat): (r: seq<Line>)
  {
    match FindLine(lines, sku)
    case Some(j) => SetQuantity(lines, j, lines[j].quantity + added)
    case None => lines + [Line(sku, name, added)]
  }

  /**
   * `deleteProduct`: rejects, changing nothing, when the SKU is not in the catalog or has no cart
   * line; otherwise the request is clamped to the line's quantity, that many units move back to
   * stock, empty lines are dropped, the categories are cleaned and the total is recomputed.
   */
  function DeleteSpec(s: State, sku: string, quantity: nat): (r: Result<State, CartError>)
  {
    match FindItem(s.items, sku)
    case None => Err(ProductNotFound(sku))
    case Some(i) =>
      match FindLine(s.lines, sku)
      case None => Err(NotInCart(sku))
      case Some(j) =>
        var current := s.lines[j].quantity;
        var removed := Clamp(quantity, current);
        var items := SetStock(s.items, i, s.items[i].stock + removed);
        var lines := RemoveEmpty(SetQuantity(s.lines, j, current - removed));
        Ok(State(items, lines, CleanCategories(s.categories, lines, items), TotalPrice(lines, items)))
  }

  /** The search returns the position of the first item with the SKU. */
  lemma {:induction false} FindItemAt(items: seq<Item>, sku: string, i: nat)
    requires i < |items| && items[i].sku == sku
    requires forall j :: 0 <= j < i ==> items[j].sku != sku
    ensures FindItem(items, sku) == Some(i)
  {
    if i > 0 {
      FindItemAt(items[1..], sku, i - 1);
    }
  }

  /** The search returns the position of the first line with the SKU. */
  lemma {:induction false} FindLineAt(lines: seq<Line>, sku: string, j: nat)
    requires j < |lines| && lines[j].sku == sku
    requires forall k :: 0 <= k < j ==> lines[k].sku != sku
    ensures FindLine(lines, sku) == Some(j)
  {
    if j > 0 {
      FindLineAt(lines[1..], sku, j - 1);
    }
  }

  /** Price and category come from the first catalog item with the SKU; a missing SKU gives 0 and "". */
  lemma PriceAndCategoryOfFirst(items: seq<Item>, sku: string)
    ensures forall i :: 0 <= i < |items| && items[i].sku == sku && (forall j :: 0 <= j < i ==> items[j].sku != sku) ==>
                          PriceOf(items, sku) == items[i].price && CategoryOf(items, sku) == items[i].category
    ensures (forall i :: 0 <= i < |items| ==> items[i].sku != sku) ==> PriceOf(items, sku) == 0 && CategoryOf(items, sku) == ""
  {
  }

  /** The lookup by SKU depends only on the SKUs, not on prices or stock. */
  lemma FindItemSameSkus(a: seq<Item>, b: seq<Item>, sku: string)
    requires |a| == |b|
    requires forall j :: 0 <= j < |a| ==> a[j].sku == b[j].sku
    ensures FindItem(a, sku) == FindItem(b, sku)
  {
  }

  /** Changing a stock leaves every lookup by SKU where it was. */
  lemma FindItemSetStock(items: seq<Item>, i: nat, stock: nat, sku: string)
    requires i < |items|
    ensures FindItem(SetStock(items, i, stock), sku) == FindItem(items, sku)
  {
    FindItemSameSkus(SetStock(items, i, stock), items, sku);
  }

  /** Whether the lines are in the catalog depends only on the SKUs of both. */
  lemma InCatalogSameSkus(lines: seq<Line>, lines': seq<Line>, items: seq<Item>, items': seq<Item>)
    requires InCatalog(lines, items)
    requires |lines'| == |lines| && forall k :: 0 <= k < |lines| ==> lines'[k].sku == lines[k].sku
    requires |items'| == |items| && forall j :: 0 <= j < |items| ==> items'[j].sku == items[j].sku
    ensures InCatalog(lines', items')
  {
    forall k | 0 <= k < |lines'| ensures Listed(items', lines'[k].sku) {
      assert Listed(items, lines[k].sku);
      FindItemSameSkus(items, items', lines[k].sku);
    }
  }

  lemma {:induction false} InCatalogRemoveEmpty(lines: seq<Line>, items: seq<Item>)
    requires InCatalog(lines, items)
    ensures InCatalog(RemoveEmpty(lines), items)
  {
    if lines != [] {
      var n := |lines| - 1;
      assert InCatalog(lines[..n], items) by {
        forall k | 0 <= k < n ensures Listed(items, lines[..n][k].sku) {
          assert Listed(items, lines[k].sku);
        }
      }
      InCatalogRemoveEmpty(lines[..n], items);
      var kept := RemoveEmpty(lines[..n]);
      if lines[n].quantity != 0 {
        var longer := kept + [lines[n]];
        forall k | 0 <= k < |longer| ensures Listed(items, longer[k].sku) {
          if k < |kept| {
            assert Listed(items, kept[k].sku);
          } else {
            assert Listed(items, lines[n].sku);
          }
        }
      }
    }
  }

  /** Lowering a quantity, dropping empty lines and restocking keeps every line in the catalog. */
  lemma InCatalogAfterRemoval(lines: seq<Line>, items: seq<Item>, j: nat, quantity: nat, i: nat, stock: nat,
                               lines': seq<Line>, items': seq<Item>)
    requires InCatalog(lines, items)
    requires j < |lines| && i < |items|
    requires lines' == RemoveEmpty(SetQuantity(lines, j, quantity)) && items' == SetStock(items, i, stock)
    ensures InCatalog(lines', items')
  {
    InCatalogSameSkus(lines, SetQuantity(lines, j, quantity), items, SetStock(items, i, stock));
    InCatalogRemoveEmpty(SetQuantity(lines, j, quantity), SetStock(items, i, stock));
  }
}
