/**
 * What `addProduct` and `deleteProduct` promise, proved about their value-level
 * specifications: clamping, conservation of units, unique SKUs, the category set
 * and the total kept in step with the lines, and the add/delete round trip.
 */
module CartProperties {
  import opened Wrappers
  import opened CartSpec

  // ---------------------------------------------------------------------------
  // Catalogs that differ only in stock, carts that differ only in quantities
  // ---------------------------------------------------------------------------

  /** Two catalogs that differ at most in their stock. */
  ghost predicate SameProducts(a: seq<Item>, b: seq<Item>)
  {
    |a| == |b| &&
    forall j :: 0 <= j < |a| ==>
      a[j].sku == b[j].sku && a[j].price == b[j].price && a[j].category == b[j].category
  }

  /** Two lists of lines that differ at most in their quantities. */
  ghost predicate SameSkus(a: seq<Line>, b: seq<Line>)
  {
    |a| == |b| && forall k :: 0 <= k < |a| ==> a[k].sku == b[k].sku
  }

  lemma SetStockSameProducts(items: seq<Item>, i: nat, stock: nat)
    requires i < |items|
    ensures SameProducts(items, SetStock(items, i, stock))
  {
  }

  lemma SetQuantitySameSkus(lines: seq<Line>, j: nat, quantity: nat)
    requires j < |lines|
    ensures SameSkus(lines, SetQuantity(lines, j, quantity))
  {
  }

  /** A stock change moves no product: lookups, prices and categories stay as they were. */
  lemma SameProductsLookups(a: seq<Item>, b: seq<Item>, sku: string)
    requires SameProducts(a, b)
    ensures FindItem(a, sku) == FindItem(b, sku)
    ensures PriceOf(a, sku) == PriceOf(b, sku) && CategoryOf(a, sku) == CategoryOf(b, sku)
  {
    FindItemSameSkus(a, b, sku);
  }

  /** Prices depend on the SKUs of the lines and the products of the catalog, not on the stock. */
  lemma {:induction false} TotalPriceSameProducts(lines: seq<Line>, a: seq<Item>, b: seq<Item>)
    requires SameProducts(a, b)
    ensures TotalPrice(lines, a) == TotalPrice(lines, b)
  {
    if lines != [] {
      var n := |lines| - 1;
      TotalPriceSameProducts(lines[..n], a, b);
      SameProductsLookups(a, b, lines[n].sku);
    }
  }

  /** The categories of the lines depend only on their SKUs and the products of the catalog. */
  lemma {:induction false} LineCategoriesSameSkus(lines: seq<Line>, lines': seq<Line>, items: seq<Item>, items': seq<Item>)
    requires SameSkus(lines, lines') && SameProducts(items, items')
    ensures LineCategories(lines', items') == LineCategories(lines, items)
  {
    if lines != [] {
      var n := |lines| - 1;
      LineCategoriesSameSkus(lines[..n], lines'[..n], items, items');
      SameProductsLookups(items, items', lines[n].sku);
    }
  }

  /** The category of every line is among the categories of the lines. */
  lemma {:induction false} LineCategoriesMember(lines: seq<Line>, items: seq<Item>, k: nat)
    requires k < |lines|
    ensures CategoryOf(items, lines[k].sku) in LineCategories(lines, items)
  {
    var n := |lines| - 1;
    if k < n {
      LineCategoriesMember(lines[..n], items, k);
    }
  }

  lemma LineCategoriesAppend(lines: seq<Line>, l: Line, items: seq<Item>)
    ensures LineCategories(lines + [l], items) == LineCategories(lines, items) + {CategoryOf(items, l.sku)}
  {
    assert (lines + [l])[..|lines|] == lines;
  }

  lemma TotalPriceAppend(lines: seq<Line>, l: Line, items: seq<Item>)
    ensures TotalPrice(lines + [l], items) == TotalPrice(lines, items) + l.quantity * PriceOf(items, l.sku)
  {
    assert (lines + [l])[..|lines|] == lines;
  }

  /** Merging `added` units into line `j` adds their price to the total. */
  lemma {:induction false} TotalPriceGrow(lines: seq<Line>, items: seq<Item>, j: nat, added: nat)
    requires j < |lines|
    ensures TotalPrice(SetQuantity(lines, j, lines[j].quantity + added), items)
         == TotalPrice(lines, items) + added * PriceOf(items, lines[j].sku)
  {
    var quantity := lines[j].quantity + added;
    var changed := SetQuantity(lines, j, quantity);
    var n := |lines| - 1;
    var price := PriceOf(items, lines[j].sku);
    if j == n {
      assert changed[..n] == lines[..n];
      MulAdd(lines[j].quantity, added, price);
    } else {
      assert changed[..n] == SetQuantity(lines[..n], j, quantity);
      TotalPriceGrow(lines[..n], items, j, added);
    }
  }

  lemma MulNat(a: nat, b: nat)
    ensures a * b >= 0
  {
  }

  lemma MulAdd(a: nat, b: nat, c: nat)
    ensures (a + b) * c == a * c + b * c
  {
  }

  /** Changing the quantity of line `j` changes the units of its SKU by the difference, and no others. */
  lemma {:induction false} UnitsSetQuantity(lines: seq<Line>, j: nat, quantity: nat, sku: string)
    requires j < |lines|
    ensures Units(SetQuantity(lines, j, quantity), sku) + (if lines[j].sku == sku then lines[j].quantity else 0)
         == Units(lines, sku) + (if lines[j].sku == sku then quantity else 0)
  {
    var n := |lines| - 1;
    var changed := SetQuantity(lines, j, quantity);
    if j == n {
      assert changed[..n] == lines[..n];
    } else {
      assert changed[..n] == SetQuantity(lines[..n], j, quantity);
      UnitsSetQuantity(lines[..n], j, quantity, sku);
    }
  }

  lemma UnitsAppend(lines: seq<Line>, l: Line, sku: string)
    ensures Units(lines + [l], sku) == Units(lines, sku) + (if l.sku == sku then l.quantity else 0)
  {
    assert (lines + [l])[..|lines|] == lines;
  }

  /** Changing the stock of item `i` changes the stock of its SKU by the difference, and no others. */
  lemma {:induction false} StockSetStock(items: seq<Item>, i: nat, stock: nat, sku: string)
    requires i < |items|
    ensures Stock(SetStock(items, i, stock), sku) + (if items[i].sku == sku then items[i].stock else 0)
         == Stock(items, sku) + (if items[i].sku == sku then stock else 0)
  {
    var n := |items| - 1;
    var changed := SetStock(items, i, stock);
    if i == n {
      assert changed[..n] == items[..n];
    } else {
      assert changed[..n] == SetStock(items[..n], i, stock);
      StockSetStock(items[..n], i, stock, sku);
    }
  }

  // ---------------------------------------------------------------------------
  // Dropping empty lines
  // ---------------------------------------------------------------------------

  /** Empty lines hold no units, so dropping them changes no SKU's count. */
  lemma {:induction false} UnitsRemoveEmpty(lines: seq<Line>, sku: string)
    ensures Units(RemoveEmpty(lines), sku) == Units(lines, sku)
  {
    if lines != [] {
      var n := |lines| - 1;
      UnitsRemoveEmpty(lines[..n], sku);
      if lines[n].quantity != 0 {
        UnitsAppend(RemoveEmpty(lines[..n]), lines[n], sku);
      }
    }
  }

  /** No line is empty after the filter. */
  lemma {:induction false} RemoveEmptyNoEmptyLines(lines: seq<Line>)
    ensures NoEmptyLines(RemoveEmpty(lines))
  {
    if lines != [] {
      var n := |lines| - 1;
      RemoveEmptyNoEmptyLines(lines[..n]);
      var kept := RemoveEmpty(lines[..n]);
      if lines[n].quantity != 0 {
        assert forall k :: 0 <= k < |kept| ==> (kept + [lines[n]])[k] == kept[k];
      }
    }
  }

  /** The filter leaves a cart without empty lines as it is. */
  lemma {:induction false} RemoveEmptyKeepsFullLines(lines: seq<Line>)
    requires NoEmptyLines(lines)
    ensures RemoveEmpty(lines) == lines
  {
    if lines != [] {
      var n := |lines| - 1;
      RemoveEmptyKeepsFullLines(lines[..n]);
      assert lines[..n] + [lines[n]] == lines;
    }
  }

  /** Every SKU left after the filter was in the cart before it. */
  lemma {:induction false} RemoveEmptySkus(lines: seq<Line>, sku: string)
    ensures FindLine(RemoveEmpty(lines), sku).Some? ==> FindLine(lines, sku).Some?
  {
    if lines != [] {
      var n := |lines| - 1;
      var kept := RemoveEmpty(lines[..n]);
      RemoveEmptySkus(lines[..n], sku);
      var r := FindLine(RemoveEmpty(lines), sku);
      if r.Some? {
        if r.value < |kept| {
          assert RemoveEmpty(lines)[r.value] == kept[r.value];
          var p := FindLine(lines[..n], sku).value;
          assert lines[p] == lines[..n][p];
        } else {
          assert lines[n].sku == sku;
        }
      }
    }
  }

  lemma {:induction false} LinesUniqueRemoveEmpty(lines: seq<Line>)
    requires LinesUnique(lines)
    ensures LinesUnique(RemoveEmpty(lines))
  {
    if lines != [] {
      var n := |lines| - 1;
      var kept := RemoveEmpty(lines[..n]);
      assert LinesUnique(lines[..n]);
      LinesUniqueRemoveEmpty(lines[..n]);
      if lines[n].quantity != 0 {
        assert FindLine(lines[..n], lines[n].sku).None?;
        RemoveEmptySkus(lines[..n], lines[n].sku);
        var longer := kept + [lines[n]];
        forall a, b | 0 <= a < b < |longer| ensures longer[a].sku != longer[b].sku {
          assert longer[a] == kept[a];
          if b < |kept| {
            assert longer[b] == kept[b];
          }
        }
      }
    }
  }

  lemma {:induction false} TotalPriceRemoveEmpty(lines: seq<Line>, items: seq<Item>)
    ensures TotalPrice(RemoveEmpty(lines), items) == TotalPrice(lines, items)
  {
    if lines != [] {
      var n := |lines| - 1;
      TotalPriceRemoveEmpty(lines[..n], items);
      if lines[n].quantity != 0 {
        TotalPriceAppend(RemoveEmpty(lines[..n]), lines[n], items);
      }
    }
  }

  /** The filter can only lose categories. */
  lemma {:induction false} LineCategoriesRemoveEmpty(lines: seq<Line>, items: seq<Item>)
    ensures LineCategories(RemoveEmpty(lines), items) <= LineCategories(lines, items)
  {
    if lines != [] {
      var n := |lines| - 1;
      LineCategoriesRemoveEmpty(lines[..n], items);
      if lines[n].quantity != 0 {
        LineCategoriesAppend(RemoveEmpty(lines[..n]), lines[n], items);
      }
    }
  }

  // ---------------------------------------------------------------------------
  // addProduct
  // ---------------------------------------------------------------------------

  /** An unknown SKU leaves lines, categories, total and every stock as they were. */
  lemma AddUnknownSkuIsNoOp(s: State, sku: string, quantity: nat)
    requires forall j :: 0 <= j < |s.items| ==> s.items[j].sku != sku
    ensures AddSpec(s, sku, quantity) == s
  {
  }

  /**
   * The units added to the cart are the requested quantity cut down to the stock
   * (the smaller of the two), and exactly that many leave the product's stock.
   */
  lemma AddClampsToStock(s: State, sku: string, quantity: nat)
    requires FindItem(s.items, sku).Some?
    ensures var i := FindItem(s.items, sku).value;
            var s' := AddSpec(s, sku, quantity);
            var added := Units(s'.lines, sku) - Units(s.lines, sku);
            && Units(s'.lines, sku) >= Units(s.lines, sku)
            && s'.items[i].stock + added == s.items[i].stock
            && added <= quantity
            && (added == quantity || s'.items[i].stock == 0)
  {
    AddMovesUnits(s, sku, quantity, sku);
  }

  /**
   * Stock plus cart units is the same before and after for every SKU, and every other
   * SKU keeps its stock, its units, its catalog entries and its cart lines.
   */
  lemma AddConservesUnits(s: State, sku: string, quantity: nat)
    ensures var s' := AddSpec(s, sku, quantity);
            forall k :: Stock(s'.items, k) + Units(s'.lines, k) == Stock(s.items, k) + Units(s.lines, k)
    ensures var s' := AddSpec(s, sku, quantity);
            forall k :: k != sku ==> Stock(s'.items, k) == Stock(s.items, k) && Units(s'.lines, k) == Units(s.lines, k)
    ensures var s' := AddSpec(s, sku, quantity);
            && |s'.items| == |s.items| && |s'.lines| >= |s.lines|
            && (forall j :: 0 <= j < |s.items| && s.items[j].sku != sku ==> s'.items[j] == s.items[j])
            && (forall j :: 0 <= j < |s.lines| && s.lines[j].sku != sku ==> s'.lines[j] == s.lines[j])
  {
    var s' := AddSpec(s, sku, quantity);
    if FindItem(s.items, sku).Some? {
      forall k
        ensures Stock(s'.items, k) + Units(s'.lines, k) == Stock(s.items, k) + Units(s.lines, k)
        ensures k != sku ==> (Stock(s'.items, k) == Stock(s.items, k) && Units(s'.lines, k) == Units(s.lines, k))
      {
        AddMovesUnits(s, sku, quantity, k);
      }
    }
  }

  /** The units of `k` that addProduct moves from stock to cart: the clamped request for its own SKU, none for others. */
  lemma AddMovesUnits(s: State, sku: string, quantity: nat, k: string)
    requires FindItem(s.items, sku).Some?
    ensures var i := FindItem(s.items, sku).value;
            var moved := if k == sku then Clamp(quantity, s.items[i].stock) else 0;
            var s' := AddSpec(s, sku, quantity);
            Stock(s'.items, k) + moved == Stock(s.items, k) && Units(s'.lines, k) == Units(s.lines, k) + moved
  {
    var i := FindItem(s.items, sku).value;
    var added := Clamp(quantity, s.items[i].stock);
    StockSetStock(s.items, i, s.items[i].stock - added, k);
    match FindLine(s.lines, sku)
    case Some(j) =>
      AddSpecMerges(s, sku, quantity, i, j);
      UnitsSetQuantity(s.lines, j, s.lines[j].quantity + added, k);
    case None =>
      AddSpecAppends(s, sku, quantity, i);
      UnitsAppend(s.lines, Line(sku, s.items[i].name, added), k);
  }

  /** An existing line for the SKU grows in place; otherwise exactly one line is appended, so SKUs stay unique. */
  lemma AddKeepsSkusUnique(s: State, sku: string, quantity: nat)
    requires LinesUnique(s.lines)
    ensures var s' := AddSpec(s, sku, quantity);
            && LinesUnique(s'.lines)
            && |s'.lines| == |s.lines| + (if FindItem(s.items, sku).Some? && FindLine(s.lines, sku).None? then 1 else 0)
            && (FindItem(s.items, sku).Some? ==> FindLine(s'.lines, sku).Some?)
  {
    var s' := AddSpec(s, sku, quantity);
    if FindItem(s.items, sku).Some? {
      var j := if FindLine(s.lines, sku).Some? then FindLine(s.lines, sku).value else |s.lines|;
      assert s'.lines[j].sku == sku;
    }
  }

  /** A successful add records the product's category and grows the total by price times units added. */
  lemma AddRecordsCategoryAndPrice(s: State, sku: string, quantity: nat)
    requires FindItem(s.items, sku).Some?
    ensures var i := FindItem(s.items, sku).value;
            var s' := AddSpec(s, sku, quantity);
            && s'.categories == s.categories + {s.items[i].category}
            && s'.total == s.total + s.items[i].price * (s.items[i].stock - s'.items[i].stock)
  {
  }

  lemma LinesUniqueSetQuantity(lines: seq<Line>, j: nat, quantity: nat)
    requires j < |lines| && LinesUnique(lines)
    ensures LinesUnique(SetQuantity(lines, j, quantity))
  {
    var changed := SetQuantity(lines, j, quantity);
    forall a, b | 0 <= a < b < |changed| ensures changed[a].sku != changed[b].sku {
      assert changed[a].sku == lines[a].sku && changed[b].sku == lines[b].sku;
    }
  }

  lemma InCatalogAppend(lines: seq<Line>, l: Line, items: seq<Item>)
    requires InCatalog(lines, items) && FindItem(items, l.sku).Some?
    ensures InCatalog(lines + [l], items)
  {
    assert forall k :: 0 <= k < |lines| ==> (lines + [l])[k] == lines[k];
  }

  /** Merging into line `j` of product `i` leaves the categories of the lines as they were, that of `i` among them. */
  lemma CategoriesAfterMerge(lines: seq<Line>, items: seq<Item>, items': seq<Item>, i: nat, j: nat, quantity: nat)
    requires j < |lines| && i < |items| && SameProducts(items, items')
    requires FindItem(items, lines[j].sku) == Some(i)
    ensures LineCategories(SetQuantity(lines, j, quantity), items') == LineCategories(lines, items) + {items[i].category}
  {
    SetQuantitySameSkus(lines, j, quantity);
    LineCategoriesSameSkus(lines, SetQuantity(lines, j, quantity), items, items');
    LineCategoriesMember(lines, items, j);
  }

  /** The total after `added` more units of product `i` are merged into line `j`, once the stock has changed. */
  lemma TotalPriceAfterMerge(lines: seq<Line>, items: seq<Item>, items': seq<Item>, i: nat, j: nat, added: nat)
    requires j < |lines| && i < |items| && SameProducts(items, items')
    requires FindItem(items, lines[j].sku) == Some(i)
    ensures TotalPrice(SetQuantity(lines, j, lines[j].quantity + added), items')
         == TotalPrice(lines, items) + items[i].price * added
  {
    TotalPriceGrow(lines, items, j, added);
    TotalPriceSameProducts(SetQuantity(lines, j, lines[j].quantity + added), items, items');
  }

  /** Appending a line for product `i` adds its category to those of the lines. */
  lemma CategoriesAfterAppend(lines: seq<Line>, items: seq<Item>, items': seq<Item>, i: nat, added: nat)
    requires i < |items| && SameProducts(items, items')
    requires FindItem(items, items[i].sku) == Some(i)
    ensures LineCategories(lines + [Line(items[i].sku, items[i].name, added)], items')
         == LineCategories(lines, items) + {items[i].category}
  {
    var l := Line(items[i].sku, items[i].name, added);
    LineCategoriesAppend(lines, l, items);
    LineCategoriesSameSkus(lines + [l], lines + [l], items, items');
  }

  /** The total after a new line for product `i` is appended, once the stock has changed. */
  lemma TotalPriceAfterAppend(lines: seq<Line>, items: seq<Item>, items': seq<Item>, i: nat, added: nat)
    requires i < |items| && SameProducts(items, items')
    requires FindItem(items, items[i].sku) == Some(i)
    ensures TotalPrice(lines + [Line(items[i].sku, items[i].name, added)], items')
         == TotalPrice(lines, items) + items[i].price * added
  {
    var l := Line(items[i].sku, items[i].name, added);
    TotalPriceAppend(lines, l, items);
    TotalPriceSameProducts(lines + [l], items, items');
    assert PriceOf(items, l.sku) == items[i].price;
    MulComm(added, items[i].price);
  }

  lemma MulComm(a: nat, b: nat)
    ensures a * b == b * a
  {
  }

  /** Merging `added` units into the existing line `j` of product `i` keeps the invariant. */
  lemma MergeKeepsInv(s: State, i: nat, j: nat, added: nat, s': State)
    requires Inv(s)
    requires i < |s.items| && j < |s.lines| && added <= s.items[i].stock
    requires FindItem(s.items, s.lines[j].sku) == Some(i)
    requires s' == State(SetStock(s.items, i, s.items[i].stock - added),
                         SetQuantity(s.lines, j, s.lines[j].quantity + added),
                         s.categories + {s.items[i].category},
                         s.total + s.items[i].price * added)
    ensures Inv(s')
  {
    SetStockSameProducts(s.items, i, s.items[i].stock - added);
    assert CatalogUnique(s'.items) by { CatalogUniqueSameProducts(s.items, s'.items); }
    assert LinesUnique(s'.lines) by { LinesUniqueSetQuantity(s.lines, j, s.lines[j].quantity + added); }
    assert InCatalog(s'.lines, s'.items) by { InCatalogSameSkus(s.lines, s'.lines, s.items, s'.items); }
    assert s'.categories == LineCategories(s'.lines, s'.items) by {
      CategoriesAfterMerge(s.lines, s.items, s'.items, i, j, s.lines[j].quantity + added);
    }
    assert s'.total == TotalPrice(s'.lines, s'.items) by {
      TotalPriceAfterMerge(s.lines, s.items, s'.items, i, j, added);
    }
  }

  /** Appending a new line for product `i`, absent from the cart, keeps the invariant. */
  lemma AppendKeepsInv(s: State, i: nat, added: nat, s': State)
    requires Inv(s)
    requires i < |s.items| && added <= s.items[i].stock
    requires FindItem(s.items, s.items[i].sku) == Some(i) && FindLine(s.lines, s.items[i].sku).None?
    requires s' == State(SetStock(s.items, i, s.items[i].stock - added),
                         s.lines + [Line(s.items[i].sku, s.items[i].name, added)],
                         s.categories + {s.items[i].category},
                         s.total + s.items[i].price * added)
    ensures Inv(s')
  {
    SetStockSameProducts(s.items, i, s.items[i].stock - added);
    assert CatalogUnique(s'.items) by { CatalogUniqueSameProducts(s.items, s'.items); }
    assert LinesUnique(s'.lines);
    assert InCatalog(s'.lines, s'.items) by {
      InCatalogAppend(s.lines, Line(s.items[i].sku, s.items[i].name, added), s.items);
      InCatalogSameSkus(s'.lines, s'.lines, s.items, s'.items);
    }
    assert s'.categories == LineCategories(s'.lines, s'.items) by {
      CategoriesAfterAppend(s.lines, s.items, s'.items, i, added);
    }
    assert s'.total == TotalPrice(s'.lines, s'.items) by {
      TotalPriceAfterAppend(s.lines, s.items, s'.items, i, added);
    }
  }

  lemma CatalogUniqueSameProducts(a: seq<Item>, b: seq<Item>)
    requires CatalogUnique(a) && SameProducts(a, b)
    ensures CatalogUnique(b)
  {
    forall x, y | 0 <= x < y < |b| ensures b[x].sku != b[y].sku {
      assert a[x].sku != a[y].sku;
    }
  }

  /** addProduct keeps the cart invariant: category set and total stay in step with the lines. */
  lemma AddPreservesInv(s: State, sku: string, quantity: nat)
    requires Inv(s)
    ensures Inv(AddSpec(s, sku, quantity))
  {
    if FindItem(s.items, sku).Some? {
      var i := FindItem(s.items, sku).value;
      var added := Clamp(quantity, s.items[i].stock);
      AddSpecFound(s, sku, quantity, i);
      var s' := AddSpec(s, sku, quantity);
      match FindLine(s.lines, sku)
      case Some(j) => MergeKeepsInv(s, i, j, added, s');
      case None => AppendKeepsInv(s, i, added, s');
    }
  }

  // ---------------------------------------------------------------------------
  // deleteProduct
  // ---------------------------------------------------------------------------

  /** deleteProduct rejects exactly when the SKU is not in the catalog, or is but has no cart line. */
  lemma DeleteRejectsBeforeMutating(s: State, sku: string, quantity: nat)
    ensures (DeleteSpec(s, sku, quantity) == Err(ProductNotFound(sku)))
        <==> (forall j :: 0 <= j < |s.items| ==> s.items[j].sku != sku)
    ensures (DeleteSpec(s, sku, quantity) == Err(NotInCart(sku)))
        <==> (exists i :: 0 <= i < |s.items| && s.items[i].sku == sku) && (forall j :: 0 <= j < |s.lines| ==> s.lines[j].sku != sku)
    ensures DeleteSpec(s, sku, quantity).Ok? || DeleteSpec(s, sku, quantity).error.sku == sku
  {
    if FindItem(s.items, sku).Some? {
      assert s.items[FindItem(s.items, sku).value].sku == sku;
    }
  }

  /**
   * The units removed are the request cut down to the line's quantity; they all return
   * to the product's stock, so stock plus cart units is unchanged for every SKU.
   */
  lemma DeleteClampsAndConserves(s: State, sku: string, quantity: nat)
    requires DeleteSpec(s, sku, quantity).Ok?
    ensures var s' := DeleteSpec(s, sku, quantity).value;
            var current := s.lines[FindLine(s.lines, sku).value].quantity;
            var removed := Units(s.lines, sku) - Units(s'.lines, sku);
            && Units(s'.lines, sku) <= Units(s.lines, sku)
            && Stock(s'.items, sku) == Stock(s.items, sku) + removed
            && removed <= quantity && removed <= current
            && (removed == quantity || removed == current)
    ensures var s' := DeleteSpec(s, sku, quantity).value;
            forall k :: Stock(s'.items, k) + Units(s'.lines, k) == Stock(s.items, k) + Units(s.lines, k)
    ensures var s' := DeleteSpec(s, sku, quantity).value;
            forall k :: k != sku ==> Stock(s'.items, k) == Stock(s.items, k) && Units(s'.lines, k) == Units(s.lines, k)
  {
    DeleteMovesUnits(s, sku, quantity, sku);
    var s' := DeleteSpec(s, sku, quantity).value;
    forall k
      ensures Stock(s'.items, k) + Units(s'.lines, k) == Stock(s.items, k) + Units(s.lines, k)
      ensures k != sku ==> Stock(s'.items, k) == Stock(s.items, k) && Units(s'.lines, k) == Units(s.lines, k)
    {
      DeleteMovesUnits(s, sku, quantity, k);
    }
  }

  /** The units of `k` that deleteProduct moves from cart back to stock: the clamped request for its own SKU, none for others. */
  lemma DeleteMovesUnits(s: State, sku: string, quantity: nat, k: string)
    requires DeleteSpec(s, sku, quantity).Ok?
    ensures var j := FindLine(s.lines, sku).value;
            var moved := if k == sku then Clamp(quantity, s.lines[j].quantity) else 0;
            var s' := DeleteSpec(s, sku, quantity).value;
            Stock(s'.items, k) == Stock(s.items, k) + moved && Units(s'.lines, k) + moved == Units(s.lines, k)
  {
    var i := FindItem(s.items, sku).value;
    var j := FindLine(s.lines, sku).value;
    var removed := Clamp(quantity, s.lines[j].quantity);
    DeleteSpecFound(s, sku, quantity, i, j);
    var s' := DeleteSpec(s, sku, quantity).value;
    RemovalMovesUnits(s.items, s.lines, i, j, removed, s'.items, s'.lines, k);
  }

  /** Moving `removed` units of line `j` back into item `i`, for the same SKU, and dropping empty lines. */
  lemma RemovalMovesUnits(items: seq<Item>, lines: seq<Line>, i: nat, j: nat, removed: nat,
                          items': seq<Item>, lines': seq<Line>, k: string)
    requires i < |items| && j < |lines| && items[i].sku == lines[j].sku && removed <= lines[j].quantity
    requires items' == SetStock(items, i, items[i].stock + removed)
    requires lines' == RemoveEmpty(SetQuantity(lines, j, lines[j].quantity - removed))
    ensures var moved := if k == lines[j].sku then removed else 0;
            Stock(items', k) == Stock(items, k) + moved && Units(lines', k) + moved == Units(lines, k)
  {
    StockSetStock(items, i, items[i].stock + removed, k);
    UnitsSetQuantity(lines, j, lines[j].quantity - removed, k);
    UnitsRemoveEmpty(SetQuantity(lines, j, lines[j].quantity - removed), k);
  }

  /**
   * After a successful delete no line is empty, and when the category set agreed with the
   * lines before, it agrees with the remaining lines after: a category stays exactly when
   * some remaining line still has it. The total is the sum over the remaining lines.
   */
  lemma DeleteRebuildsDerivedState(s: State, sku: string, quantity: nat)
    requires s.categories == LineCategories(s.lines, s.items)
    requires DeleteSpec(s, sku, quantity).Ok?
    ensures var s' := DeleteSpec(s, sku, quantity).value;
            && NoEmptyLines(s'.lines)
            && s'.categories == LineCategories(s'.lines, s'.items)
            && s'.total == TotalPrice(s'.lines, s'.items)
  {
    var i := FindItem(s.items, sku).value;
    var j := FindLine(s.lines, sku).value;
    DeleteSpecFound(s, sku, quantity, i, j);
    RemovalRebuilds(s, i, j, Clamp(quantity, s.lines[j].quantity), DeleteSpec(s, sku, quantity).value);
  }

  /** Taking `removed` units out of line `j` back into item `i` and rebuilding the derived state. */
  lemma RemovalRebuilds(s: State, i: nat, j: nat, removed: nat, s': State)
    requires s.categories == LineCategories(s.lines, s.items)
    requires i < |s.items| && j < |s.lines| && removed <= s.lines[j].quantity
    requires s'.items == SetStock(s.items, i, s.items[i].stock + removed)
    requires s'.lines == RemoveEmpty(SetQuantity(s.lines, j, s.lines[j].quantity - removed))
    requires s'.categories == CleanCategories(s.categories, s'.lines, s'.items)
    requires s'.total == TotalPrice(s'.lines, s'.items)
    ensures NoEmptyLines(s'.lines)
    ensures s'.categories == LineCategories(s'.lines, s'.items)
  {
    var lowered := SetQuantity(s.lines, j, s.lines[j].quantity - removed);
    RemoveEmptyNoEmptyLines(lowered);
    SetStockSameProducts(s.items, i, s.items[i].stock + removed);
    SetQuantitySameSkus(s.lines, j, s.lines[j].quantity - removed);
    LineCategoriesSameSkus(s.lines, lowered, s.items, s'.items);
    LineCategoriesRemoveEmpty(lowered, s'.items);
  }

  /** After the same step every remaining line is still in the catalog. */
  lemma RemovalInCatalog(s: State, i: nat, j: nat, removed: nat, lines': seq<Line>, items': seq<Item>)
    requires Inv(s)
    requires i < |s.items| && j < |s.lines| && removed <= s.lines[j].quantity
    requires lines' == RemoveEmpty(SetQuantity(s.lines, j, s.lines[j].quantity - removed))
    requires items' == SetStock(s.items, i, s.items[i].stock + removed)
    ensures InCatalog(lines', items')
  {
    InCatalogAfterRemoval(s.lines, s.items, j, s.lines[j].quantity - removed, i, s.items[i].stock + removed, lines', items');
  }

  /** The same step keeps the whole invariant. */
  lemma RemovalKeepsInv(s: State, i: nat, j: nat, removed: nat, s': State)
    requires Inv(s)
    requires i < |s.items| && j < |s.lines| && removed <= s.lines[j].quantity
    requires s'.items == SetStock(s.items, i, s.items[i].stock + removed)
    requires s'.lines == RemoveEmpty(SetQuantity(s.lines, j, s.lines[j].quantity - removed))
    requires s'.categories == CleanCategories(s.categories, s'.lines, s'.items)
    requires s'.total == TotalPrice(s'.lines, s'.items)
    ensures Inv(s')
  {
    var lowered := SetQuantity(s.lines, j, s.lines[j].quantity - removed);
    RemovalRebuilds(s, i, j, removed, s');
    assert CatalogUnique(s'.items) by {
      SetStockSameProducts(s.items, i, s.items[i].stock + removed);
      CatalogUniqueSameProducts(s.items, s'.items);
    }
    assert LinesUnique(s'.lines) by {
      LinesUniqueSetQuantity(s.lines, j, s.lines[j].quantity - removed);
      LinesUniqueRemoveEmpty(lowered);
    }
    assert InCatalog(s'.lines, s'.items) by {
      RemovalInCatalog(s, i, j, removed, s'.lines, s'.items);
    }
  }

  /** Putting back the units taken out of one stock restores the catalog. */
  lemma SetStockRestore(items: seq<Item>, i: nat, taken: nat)
    requires i < |items| && taken <= items[i].stock
    ensures var lowered := SetStock(items, i, items[i].stock - taken);
            SetStock(lowered, i, lowered[i].stock + taken) == items
  {
  }

  /** The successful path of deleteProduct, for a product at `i` with its line at `j`. */
  lemma DeleteSpecFound(s: State, sku: string, quantity: nat, i: nat, j: nat)
    requires FindItem(s.items, sku) == Some(i) && FindLine(s.lines, sku) == Some(j)
    ensures var removed := Clamp(quantity, s.lines[j].quantity);
            var items := SetStock(s.items, i, s.items[i].stock + removed);
            var lines := RemoveEmpty(SetQuantity(s.lines, j, s.lines[j].quantity - removed));
            DeleteSpec(s, sku, quantity) == Ok(State(items, lines, CleanCategories(s.categories, lines, items), TotalPrice(lines, items)))
  {
  }

  /** A state built as the successful path of deleteProduct builds it is the result deleteProduct specifies. */
  lemma DeleteSpecAccepts(s: State, sku: string, quantity: nat, i: nat, j: nat, removed: nat, s': State)
    requires FindItem(s.items, sku) == Some(i) && FindLine(s.lines, sku) == Some(j)
    requires removed == Clamp(quantity, s.lines[j].quantity)
    requires s'.items == SetStock(s.items, i, s.items[i].stock + removed)
    requires s'.lines == RemoveEmpty(SetQuantity(s.lines, j, s.lines[j].quantity - removed))
    requires s'.categories == CleanCategories(s.categories, s'.lines, s'.items)
    requires s'.total == TotalPrice(s'.lines, s'.items)
    ensures DeleteSpec(s, sku, quantity) == Ok(s')
  {
    DeleteSpecFound(s, sku, quantity, i, j);
  }

  /** deleteProduct keeps the cart invariant. */
  lemma DeletePreservesInv(s: State, sku: string, quantity: nat)
    requires Inv(s)
    requires DeleteSpec(s, sku, quantity).Ok?
    ensures Inv(DeleteSpec(s, sku, quantity).value)
  {
    var i := FindItem(s.items, sku).value;
    var j := FindLine(s.lines, sku).value;
    DeleteSpecFound(s, sku, quantity, i, j);
    RemovalKeepsInv(s, i, j, Clamp(quantity, s.lines[j].quantity), DeleteSpec(s, sku, quantity).value);
  }

  // ---------------------------------------------------------------------------
  // Round trip and the demo scenario
  // ---------------------------------------------------------------------------

  /** addProduct for a product found at `i`, with the line update left to AddToLines. */
  lemma AddSpecFound(s: State, sku: string, quantity: nat, i: nat)
    requires FindItem(s.items, sku) == Some(i)
    ensures var added := Clamp(quantity, s.items[i].stock);
            AddSpec(s, sku, quantity) ==
              State(SetStock(s.items, i, s.items[i].stock - added), AddToLines(s.lines, sku, s.items[i].name, added),
                    s.categories + {s.items[i].category}, s.total + s.items[i].price * added)
  {
  }

  /** The path of addProduct that appends a new line for product `i`. */
  lemma AddSpecAppends(s: State, sku: string, quantity: nat, i: nat)
    requires FindItem(s.items, sku) == Some(i) && FindLine(s.lines, sku).None?
    ensures var added := Clamp(quantity, s.items[i].stock);
            AddSpec(s, sku, quantity) ==
              State(SetStock(s.items, i, s.items[i].stock - added), s.lines + [Line(sku, s.items[i].name, added)],
                    s.categories + {s.items[i].category}, s.total + s.items[i].price * added)
  {
  }

  /** The path of addProduct that merges into the existing line `j` of product `i`. */
  lemma AddSpecMerges(s: State, sku: string, quantity: nat, i: nat, j: nat)
    requires FindItem(s.items, sku) == Some(i) && FindLine(s.lines, sku) == Some(j)
    ensures var added := Clamp(quantity, s.items[i].stock);
            AddSpec(s, sku, quantity) ==
              State(SetStock(s.items, i, s.items[i].stock - added), SetQuantity(s.lines, j, s.lines[j].quantity + added),
                    s.categories + {s.items[i].category}, s.total + s.items[i].price * added)
  {
  }

  /** Deleting what was just added as a new line takes back the line and the stock. */
  lemma AddThenDeleteRestoresLines(s: State, sku: string, quantity: nat)
    requires NoEmptyLines(s.lines)
    requires FindItem(s.items, sku).Some? && FindLine(s.lines, sku).None?
    ensures var r := DeleteSpec(AddSpec(s, sku, quantity), sku, quantity);
            && r.Ok? && r.value.items == s.items && r.value.lines == s.lines
            && r.value.categories == CleanCategories(AddSpec(s, sku, quantity).categories, s.lines, s.items)
            && r.value.total == TotalPrice(s.lines, s.items)
  {
    var i := FindItem(s.items, sku).value;
    var n := |s.lines|;
    var added := Clamp(quantity, s.items[i].stock);
    AddSpecAppends(s, sku, quantity, i);
    var a := AddSpec(s, sku, quantity);
    FindItemSetStock(s.items, i, s.items[i].stock - added, sku);
    assert FindLine(a.lines, sku) == Some(n) by {
      assert a.lines[n].sku == sku;
    }
    DeleteSpecFound(a, sku, quantity, i, n);
    assert a.lines[n].quantity == added;
    assert Clamp(quantity, added) == added;
    SetStockRestore(s.items, i, added);
    assert a.items == SetStock(s.items, i, s.items[i].stock - added);
    assert a.items[i].stock + added == s.items[i].stock;
    assert SetStock(a.items, i, a.items[i].stock + added) == s.items;
    assert DeleteSpec(a, sku, quantity).value.items == s.items;
    var lowered := SetQuantity(a.lines, n, 0);
    assert lowered[..n] == s.lines;
    RemoveEmptyKeepsFullLines(s.lines);
  }

  /**
   * Adding a product that is not yet in the cart and then deleting the same quantity
   * restores the catalog and the cart exactly, when no line of the cart was empty and the
   * category set and total agreed with the lines before.
   */
  lemma AddThenDeleteRoundTrip(s: State, sku: string, quantity: nat)
    requires NoEmptyLines(s.lines)
    requires s.categories == LineCategories(s.lines, s.items) && s.total == TotalPrice(s.lines, s.items)
    requires FindItem(s.items, sku).Some?
    requires forall j :: 0 <= j < |s.lines| ==> s.lines[j].sku != sku
    ensures DeleteSpec(AddSpec(s, sku, quantity), sku, quantity) == Ok(s)
  {
    AddThenDeleteRestoresLines(s, sku, quantity);
    var i := FindItem(s.items, sku).value;
    AddSpecAppends(s, sku, quantity, i);
    var r := DeleteSpec(AddSpec(s, sku, quantity), sku, quantity);
    assert r.value.categories == (s.categories + {s.items[i].category}) * s.categories == s.categories;
    assert r.value == s;
  }

  /** The seed catalog has no repeated SKU. */
  lemma SupermarketSkusUnique()
    ensures CatalogUnique(SupermarketProducts)
  {
  }

  /**
   * The demo's first two adds: soap (price 4, stock 3) requested twice with quantity 2
   * ends with one line of 3 units, no stock left and 12 in the total.
   */
  lemma JabonScenario()
    ensures var s := AddSpec(AddSpec(EmptyCart, "WE328NJ", 2), "WE328NJ", 2);
            && s.lines == [Line("WE328NJ", "Jabon", 3)]
            && s.items == SetStock(SupermarketProducts, 7, 0)
            && s.categories == {"higiene"}
            && s.total == 12
  {
    var items := SupermarketProducts;
    FindItemAt(items, "WE328NJ", 7);
    var s1 := AddSpec(EmptyCart, "WE328NJ", 2);
    assert s1.lines == [Line("WE328NJ", "Jabon", 2)];
    assert FindItem(s1.items, "WE328NJ") == Some(7) by { FindItemSetStock(items, 7, 1, "WE328NJ"); }
  }
}
