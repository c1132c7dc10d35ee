/**
 * The objects of the shopping cart: catalog products whose stock is changed in
 * place, and the cart whose lines, category set and total are reassigned by its
 * methods. Every mutating method is proved to follow the value-level
 * specification in module CartSpec, and so inherits the lemmas of CartProperties.
 */
module Supermarket {
  import opened Wrappers
  import opened CartSpec
  import opened CartProperties

  /** A catalog product; only its stock ever changes. */
  class Product {
    const sku: string
    const name: string
    const price: nat
    const category: string
    var stock: nat

    constructor(sku: string, name: string, price: nat, category: string, stock: nat := 10)
      ensures Snapshot() == Item(sku, name, price, category, stock)
    {
      this.sku := sku;
      this.name := name;
      this.price := price;
      this.category := category;
      this.stock := stock;
    }

    /** The product as a value, for the specification. */
    function Snapshot(): (r: Item)
      reads this
    {
      Item(sku, name, price, category, stock)
    }
  }

  /** The catalog as values, item by item. */
  function Snapshots(products: seq<Product>): (r: seq<Item>)
    reads products
    ensures |r| == |products|
  {
    seq(|products|, k requires 0 <= k < |products| reads products => products[k].Snapshot())
  }

  /** Builds the products of the seed catalog, in its order, as new objects. */
  method NewSupermarketProducts() returns (products: seq<Product>)
    ensures Snapshots(products) == SupermarketProducts
    ensures forall k :: 0 <= k < |products| ==> fresh(products[k])
  {
    products := [];
    var k := 0;
    while k < |SupermarketProducts|
      invariant k <= |SupermarketProducts|
      invariant Snapshots(products) == SupermarketProducts[..k]
      invariant forall m :: 0 <= m < |products| ==> fresh(products[m])
    {
      var item := SupermarketProducts[k];
      var product := new Product(item.sku, item.name, item.price, item.category, item.stock);
      products := products + [product];
      k := k + 1;
    }
  }

  class Cart {
    /** The catalog the cart draws on (the module-level product list of the original). */
    const catalog: seq<Product>
    var totalPrice: nat
    var products: seq<Line>
    var categories: set<string>

    function Items(): (r: seq<Item>)
      reads catalog
    {
      Snapshots(catalog)
    }

    ghost function Abstract(): (r: State)
      reads this, catalog
    {
      State(Items(), products, categories, totalPrice)
    }

    ghost predicate Valid()
      reads this, catalog
    {
      Inv(Abstract())
    }

    /** An empty cart over `catalog`, whose products must have distinct SKUs. */
    constructor(catalog: seq<Product>)
      requires CatalogUnique(Snapshots(catalog))
      ensures this.catalog == catalog
      ensures Abstract() == State(Snapshots(catalog), [], {}, 0)
      ensures Valid()
    {
      this.catalog := catalog;
      totalPrice := 0;
      products := [];
      categories := {};
    }

    /** The position of the first catalog product with the SKU (`supermarketProducts.find`). */
    method IndexOfProduct(sku: string) returns (r: Option<nat>)
      ensures r == FindItem(Items(), sku)
      ensures r.None? <==> forall j :: 0 <= j < |catalog| ==> catalog[j].sku != sku
      ensures r.Some? ==> r.value < |catalog| && catalog[r.value].sku == sku
    {
      var k := 0;
      while k < |catalog|
        invariant k <= |catalog|
        invariant forall j :: 0 <= j < k ==> catalog[j].sku != sku
      {
        if catalog[k].sku == sku {
          FindItemAt(Items(), sku, k);
          return Some(k);
        }
        k := k + 1;
      }
      assert forall j :: 0 <= j < |catalog| ==> Items()[j].sku != sku;
      return None;
    }

    /** `findProductBySku`: the first product with the SKU, or an error naming the SKU. */
    method FindProductBySku(sku: string) returns (r: Result<Product, CartError>)
      ensures r.Err? <==> FindItem(Items(), sku).None?
      ensures r.Err? ==> r.error == ProductNotFound(sku)
      ensures r.Ok? ==> FindItem(Items(), sku).Some? && r.value == catalog[FindItem(Items(), sku).value]
    {
      var i := IndexOfProduct(sku);
      if i.None? {
        return Err(ProductNotFound(sku));
      }
      return Ok(catalog[i.value]);
    }

    /** The position of the first cart line with the SKU (`this.products.find`). */
    method IndexOfLine(sku: string) returns (r: Option<nat>)
      ensures r == FindLine(products, sku)
      ensures r.None? <==> forall j :: 0 <= j < |products| ==> products[j].sku != sku
    {
      var k := 0;
      while k < |products|
        invariant k <= |products|
        invariant forall j :: 0 <= j < k ==> products[j].sku != sku
      {
        if products[k].sku == sku {
          FindLineAt(products, sku, k);
          return Some(k);
        }
        k := k + 1;
      }
      return None;
    }

    /** `getQuantityOfProductInCart`: the quantity of the SKU's line; None where the original throws. */
    method GetQuantityOfProductInCart(sku: string) returns (r: Option<nat>)
      ensures r == QuantityInCart(products, sku)
      ensures r.Some? ==> FindLine(products, sku).Some? && r.value == products[FindLine(products, sku).value].quantity
    {
      var j := IndexOfLine(sku);
      if j.None? {
        return None;
      }
      return Some(products[j.value].quantity);
    }

    /** Different SKUs are different objects, so changing one product leaves the others alone. */
    lemma DistinctProducts()
      requires CatalogUnique(Items())
      ensures forall a, b :: 0 <= a < b < |catalog| ==> catalog[a] != catalog[b]
    {
      forall a, b | 0 <= a < b < |catalog| ensures catalog[a] != catalog[b] {
        assert Items()[a].sku != Items()[b].sku;
      }
    }

    /** `decreaseStockQuantity`: takes `quantity` units out of the SKU's stock. */
    method DecreaseStockQuantity(sku: string, quantity: nat)
      requires CatalogUnique(Items())
      requires FindItem(Items(), sku).Some? && quantity <= Items()[FindItem(Items(), sku).value].stock
      modifies catalog
      ensures var i := FindItem(old(Items()), sku).value;
              Items() == SetStock(old(Items()), i, old(Items())[i].stock - quantity)
    {
      DistinctProducts();
      var i := IndexOfProduct(sku);
      var product := catalog[i.value];
      product.stock := product.stock - quantity;
      assert forall k :: 0 <= k < |catalog| && k != i.value ==> catalog[k].Snapshot() == old(catalog[k].Snapshot());
    }

    /** `increaseStockQuantity`: puts `quantity` units back into the SKU's stock. */
    method IncreaseStockQuantity(sku: string, quantity: nat)
      requires CatalogUnique(Items())
      requires FindItem(Items(), sku).Some?
      modifies catalog
      ensures var i := FindItem(old(Items()), sku).value;
              Items() == SetStock(old(Items()), i, old(Items())[i].stock + quantity)
    {
      DistinctProducts();
      var i := IndexOfProduct(sku);
      var product := catalog[i.value];
      product.stock := product.stock + quantity;
      assert forall k :: 0 <= k < |catalog| && k != i.value ==> catalog[k].Snapshot() == old(catalog[k].Snapshot());
    }

    /** `decreaseProductQuantity`: takes `quantity` units off the SKU's line. */
    method DecreaseProductQuantity(sku: string, quantity: nat)
      requires FindLine(products, sku).Some? && quantity <= products[FindLine(products, sku).value].quantity
      modifies this`products
      ensures var j := FindLine(old(products), sku).value;
              products == SetQuantity(old(products), j, old(products)[j].quantity - quantity)
    {
      var j := IndexOfLine(sku);
      products := SetQuantity(products, j.value, products[j.value].quantity - quantity);
    }

    /** `cleanCategories`: keeps the categories that some line of the cart still has. */
    method CleanCategories()
      requires InCatalog(products, Items())
      modifies this`categories
      ensures categories == old(categories) * LineCategories(products, Items())
    {
      var toKeep: set<string> := {};
      var k := 0;
      while k < |products|
        invariant k <= |products|
        invariant toKeep == LineCategories(products[..k], Items())
        invariant categories == old(categories)
      {
        assert Listed(Items(), products[k].sku);
        var i := IndexOfProduct(products[k].sku);
        toKeep := toKeep + {catalog[i.value].category};
        assert products[..k + 1][..k] == products[..k];
        k := k + 1;
      }
      assert products[..k] == products;
      categories := categories * toKeep;
    }

    /** `calculateTotalPrice`: the sum of quantity times catalog price over `lines`, stored as the total. */
    method CalculateTotalPrice(lines: seq<Line>) returns (r: nat)
      requires InCatalog(lines, Items())
      modifies this`totalPrice
      ensures r == TotalPrice(lines, Items()) && totalPrice == r
    {
      var acc := 0;
      var k := 0;
      while k < |lines|
        invariant k <= |lines|
        invariant acc == TotalPrice(lines[..k], Items())
      {
        assert Listed(Items(), lines[k].sku);
        var i := IndexOfProduct(lines[k].sku);
        acc := acc + lines[k].quantity * catalog[i.value].price;
        assert lines[..k + 1][..k] == lines[..k];
        k := k + 1;
      }
      assert lines[..k] == lines;
      totalPrice := acc;
      r := acc;
    }

    /**
     * `addProduct`: an unknown SKU changes nothing; otherwise the request is cut down
     * to the stock, moved from stock into the SKU's line, and category and total updated.
     */
    method AddProduct(sku: string, quantity: nat)
      requires Valid()
      modifies this, catalog
      ensures Abstract() == AddSpec(old(Abstract()), sku, quantity)
      ensures Valid()
    {
      ghost var s := Abstract();
      var found := FindProductBySku(sku);
      if found.Err? {
        AddUnknownSkuIsNoOp(s, sku, quantity);
        return;
      }
      ghost var i := FindItem(s.items, sku).value;
      var product := found.value;
      assert product.Snapshot() == s.items[i];
      var added := quantity;
      if product.stock < added {
        added := product.stock;
      }
      assert added == Clamp(quantity, s.items[i].stock);
      var cost := product.price * added;
      MulNat(product.price, added);
      assert cost == s.items[i].price * added;
      DecreaseStockQuantity(sku, added);
      PutInCart(sku, product.name, added);
      categories := categories + {product.category};
      totalPrice := totalPrice + cost;
      AddSpecFound(s, sku, quantity, i);
      ghost var expected := AddSpec(s, sku, quantity);
      assert Items() == expected.items;
      assert products == expected.lines;
      assert categories == expected.categories;
      assert totalPrice == expected.total;
      AddPreservesInv(s, sku, quantity);
    }

    /** The line update of `addProduct`: `added` units merged into the SKU's line, or a new line for it. */
    method PutInCart(sku: string, name: string, added: nat)
      modifies this`products
      ensures products == AddToLines(old(products), sku, name, added)
    {
      var j := IndexOfLine(sku);
      if j.Some? {
        products := SetQuantity(products, j.value, products[j.value].quantity + added);
      } else {
        products := products + [Line(sku, name, added)];
      }
    }

    /**
     * `deleteProduct`: rejects an unknown SKU or one without a line, changing nothing;
     * otherwise the request is cut down to the line's quantity, moved back to stock,
     * empty lines are dropped, categories cleaned and the total recomputed.
     */
    method DeleteProduct(sku: string, quantity: nat) returns (r: Result<seq<Line>, CartError>)
      requires Valid()
      modifies this, catalog
      ensures match DeleteSpec(old(Abstract()), sku, quantity)
              case Err(e) => r == Err(e) && Abstract() == old(Abstract())
              case Ok(s) => r == Ok(s.lines) && Abstract() == s
      ensures Valid()
    {
      ghost var s := Abstract();
      var found := FindProductBySku(sku);
      if found.Err? {
        assert DeleteSpec(s, sku, quantity) == Err(ProductNotFound(sku));
        return Err(found.error);
      }
      var current := GetQuantityOfProductInCart(sku);
      if current.None? {
        assert DeleteSpec(s, sku, quantity) == Err(NotInCart(sku));
        return Err(NotInCart(sku));
      }
      var removed := quantity;
      if current.value < removed {
        removed := current.value;
      }
      ghost var i := FindItem(s.items, sku).value;
      ghost var j := FindLine(s.lines, sku).value;
      assert removed == Clamp(quantity, s.lines[j].quantity);
      DecreaseProductQuantity(sku, removed);
      assert products == SetQuantity(s.lines, j, s.lines[j].quantity - removed);
      assert Items() == s.items;
      IncreaseStockQuantity(sku, removed);
      assert Items() == SetStock(s.items, i, s.items[i].stock + removed);
      products := RemoveEmpty(products);
      RemovalInCatalog(s, i, j, removed, products, Items());
      CleanCategories();
      var _ := CalculateTotalPrice(products);
      r := Ok(products);
      DeleteSpecAccepts(s, sku, quantity, i, j, removed, Abstract());
      RemovalKeepsInv(s, i, j, removed, Abstract());
    }
  }

  /**
   * The first two calls of the demo: soap requested twice with quantity 2 on a fresh
   * cart over the seed catalog leaves one line of 3 units, no soap in stock and 12 in the total.
   */
  method JabonDemo() returns (cart: Cart)
    ensures cart.products == [Line("WE328NJ", "Jabon", 3)]
    ensures cart.Items() == SetStock(SupermarketProducts, 7, 0)
    ensures cart.categories == {"higiene"} && cart.totalPrice == 12
  {
    var catalog := NewSupermarketProducts();
    SupermarketSkusUnique();
    cart := new Cart(catalog);
    assert cart.Abstract() == EmptyCart;
    cart.AddProduct("WE328NJ", 2);
    cart.AddProduct("WE328NJ", 2);
    JabonScenario();
  }
}
