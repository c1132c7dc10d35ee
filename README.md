# Supermarket shopping cart

A model of the shopping cart in `task.js`. The system has:

- a fixed catalog of supermarket products (`supermarketProducts`), whose stock changes in place;
- a `Cart` holding the lines it bought (`ProductInCart`: SKU, name, quantity), the set of
  categories it holds, and a running total price.

Adding a product works like this:

- the product is looked up by SKU;
- the request is cut down to the stock;
- that many units leave the stock and go into the SKU's line, merged into an existing line or appended as a new one;
- the product's category is recorded and the total grows by price times units.

Deleting a product works like this:

- the product is looked up, and so is its line;
- the request is cut down to the line's quantity;
- those units go back to stock;
- lines left at quantity 0 are dropped;
- the categories are cleaned down to those of the remaining lines;
- the total is recomputed from scratch.

The project has four files:

- `wrappers.dfy`: `Option` and `Result`.
- `cart_spec.dfy` (module `CartSpec`):
  - value snapshots of the catalog (`Item`) and the cart lines (`Line`), and the cart state (`State`);
  - the lookups (`FindItem`, `FindLine`);
  - the functional specification of both cart operations (`AddSpec`, `DeleteSpec`) and of the map/filter/reduce steps they use (`CleanCategories`, `TotalPrice`, `RemoveEmpty`);
  - the cart invariant `Inv`: SKUs are unique in catalog and cart, every line is in the catalog, the categories are those of the lines, and the total is the sum of quantity times price.
- `cart_properties.dfy` (module `CartProperties`): lemmas about the specification.
  - Clamping and conservation of units (stock plus cart units is constant for every SKU).
  - Unique lines.
  - Rejection before any mutation.
  - Preservation of the invariant.
  - The add-then-delete round trip.
  - The first two calls of the demo.
- `supermarket.dfy` (module `Supermarket`):
  - `Product` is a class whose `stock` field is updated in place.
  - `Cart` is a class with `totalPrice`, `products` and `categories` fields, and one method per method of the original.
  - The two cart operations, `AddProduct` and `DeleteProduct`, are proved to move the cart's abstract state (`Cart.Abstract`) exactly as `AddSpec` and `DeleteSpec` say, and to keep `Inv`.
  - The helper methods they call are each tied to a specification function for the fields they change. They do not keep `Inv` on their own: for instance, `PutInCart` alone leaves the total behind.

## Model

| member | source | states |
|---|---|---|
| Supermarket.Product.constructor | task.js:1-9 | the new product carries the given SKU, name, price, category and stock (10 when not given) |
| Supermarket.NewSupermarketProducts | task.js:11-29 | builds fresh product objects whose values are exactly the eight seed products, in catalog order |
| CartProperties.SupermarketSkusUnique | task.js:11-29 | no two seed products share a SKU |
| Supermarket.Cart.constructor | task.js:31-36 | a new cart has no lines, no categories and total 0, over the given catalog, and satisfies the cart invariant |
| Supermarket.Cart.AddProduct | task.js:38-76 | the new catalog and cart are exactly `AddSpec` of the old ones (unknown SKU: nothing changes; otherwise clamp, move stock into the line, record category, grow the total), and the cart invariant is kept |
| Supermarket.Cart.PutInCart | task.js:62-67 | `added` units are merged into the first line with the SKU, or a new line with the product's name is appended when there is none |
| Supermarket.Cart.DeleteProduct | task.js:78-113 | unknown SKU or SKU without a line: returns that error and changes nothing; otherwise returns the remaining lines and the new state is exactly `DeleteSpec` of the old one; the cart invariant is kept |
| Supermarket.Cart.FindProductBySku | task.js:115-128 | fails with the SKU exactly when no catalog product has it; otherwise returns the first catalog product with that SKU |
| Supermarket.Cart.IndexOfProduct | task.js:117-119 | returns the position of the first catalog product with the SKU, or none exactly when no product has it |
| Supermarket.Cart.DecreaseStockQuantity | task.js:130-135 | only the stock of the SKU's product changes, lowered by `quantity`; every other product is unchanged |
| Supermarket.Cart.IncreaseStockQuantity | task.js:137-142 | only the stock of the SKU's product changes, raised by `quantity`; every other product is unchanged |
| Supermarket.Cart.DistinctProducts | task.js:20-29 | catalog products with different SKUs are different objects, so a stock update through one product touches no other |
| Supermarket.Cart.IndexOfLine | task.js:144-147 | returns the position of the first cart line with the SKU, or none exactly when no line has it |
| Supermarket.Cart.DecreaseProductQuantity | task.js:144-147 | only the quantity of the SKU's line changes, lowered by `quantity` |
| Supermarket.Cart.GetQuantityOfProductInCart | task.js:149-152 | the quantity of the first line with the SKU; none (where the original throws) exactly when the cart has no such line |
| Supermarket.Cart.CleanCategories | task.js:154-163 | the categories become those old categories that are the category of some current line |
| Supermarket.Cart.CalculateTotalPrice | task.js:165-173 | returns and stores the sum over the lines of quantity times the catalog price of the line's SKU |
| Supermarket.JabonDemo | task.js:218-221 | a fresh cart over the seed catalog, after two adds of 2 soaps, holds one soap line of 3 units, soap stock 0, categories {higiene} and total 12 |
| CartSpec.Clamp | task.js:51-58 | the result is the smaller of request and availability: at most each, and equal to one of them |
| CartSpec.FindItem | task.js:117-119 | a found index holds the SKU and no earlier item does; none means no item has the SKU |
| CartSpec.FindLine | task.js:62 | a found index holds the SKU and no earlier line does; none means no line has the SKU |
| CartSpec.QuantityInCart | task.js:149-152 | none exactly when no line has the SKU; otherwise the quantity of the first line with that SKU |
| CartSpec.PriceAndCategoryOfFirst | task.js:154-170 | the price and category used for a line are those of the first catalog product with its SKU |
| CartSpec.InCatalogRemoveEmpty | task.js:103 | dropping empty lines keeps every line in the catalog |
| CartProperties.AddUnknownSkuIsNoOp | task.js:43-74 | adding a SKU absent from the catalog leaves catalog and cart exactly as they were |
| CartProperties.AddClampsToStock | task.js:51-60 | the units added are at most the request and at most the stock, all the request unless the stock runs out, and the stock falls by exactly that many |
| CartProperties.AddMovesUnits | task.js:51-67 | for each SKU, the units leaving the stock equal the units entering the cart: the clamped request for the added SKU, none for others |
| CartProperties.AddConservesUnits | task.js:60-67 | stock plus cart units is unchanged for every SKU; other SKUs keep stock, units, catalog entries and lines |
| CartProperties.AddKeepsSkusUnique | task.js:62-67 | lines stay unique by SKU; one line is appended exactly when the SKU is in the catalog but not yet in the cart; afterwards the SKU has a line |
| CartProperties.AddRecordsCategoryAndPrice | task.js:69-71 | the product's category joins the set and the total grows by price times the units taken from stock |
| CartProperties.TotalPriceGrow | task.js:165-173 | growing a line by `added` units grows the recomputed total by `added` times its price, so the running total agrees with the recomputation |
| CartProperties.MergeKeepsInv | task.js:60-71 | merging into an existing line keeps the cart invariant |
| CartProperties.AppendKeepsInv | task.js:60-71 | appending a new line keeps the cart invariant |
| CartProperties.AddPreservesInv | task.js:38-76 | every add keeps the cart invariant |
| CartProperties.DeleteRejectsBeforeMutating | task.js:78-113 | delete fails with not-found exactly when no catalog product has the SKU, and with not-in-cart exactly when a product has it but no line does; every failure names the SKU |
| CartProperties.DeleteClampsAndConserves | task.js:92-101 | the units removed are at most the request and at most the line's quantity, and equal one of them; they all return to stock, so stock plus cart units is unchanged for every SKU and other SKUs are untouched |
| CartProperties.DeleteMovesUnits | task.js:92-103 | for each SKU, the units returning to stock equal the units leaving the cart |
| CartProperties.RemovalMovesUnits | task.js:100-103 | lowering a line and restocking its product by the same amount, then dropping empty lines, moves exactly that many units for that SKU and none for others |
| CartProperties.UnitsRemoveEmpty | task.js:103 | dropping empty lines changes no SKU's unit count |
| CartProperties.RemoveEmptyNoEmptyLines | task.js:103 | after the filter no line has quantity 0 |
| CartProperties.RemoveEmptyKeepsFullLines | task.js:103 | the filter leaves a cart without empty lines unchanged |
| CartProperties.LinesUniqueRemoveEmpty | task.js:103 | the filter keeps lines unique by SKU |
| CartProperties.TotalPriceRemoveEmpty | task.js:103 | empty lines contribute nothing to the total |
| CartProperties.LineCategoriesRemoveEmpty | task.js:103 | the filter can only lose line categories |
| CartProperties.LineCategoriesMember | task.js:154-158 | the category of every line is among the line categories |
| CartProperties.DeleteRebuildsDerivedState | task.js:103-107 | after a successful delete no line is empty, the categories are exactly those of the remaining lines, and the total is their sum |
| CartProperties.RemovalKeepsInv | task.js:100-107 | lowering the line, restocking, filtering, cleaning and recomputing keeps the cart invariant |
| CartProperties.DeletePreservesInv | task.js:78-113 | every successful delete keeps the cart invariant |
| CartProperties.AddThenDeleteRoundTrip | task.js:38-113 | adding a catalog product that has no line yet, then deleting the same quantity, restores catalog, lines, categories and total exactly |
| CartProperties.AddThenDeleteRestoresLines | task.js:38-113 | the same round trip restores catalog and lines even without the derived-state hypotheses |
| CartProperties.JabonScenario | task.js:219-221 | the specification of two adds of 2 soaps (price 4, stock 3) yields one line of 3, soap stock 0, categories {higiene}, total 12 |

## Left out

- Logging (`Logger`, `console.log`, `console.error`) and `showCurrentCart` are output only and are not modelled.
- The simulated 1.5-second delay of `findProductBySku` and the promises around add and delete are not modelled. Lookups are synchronous: an add that fails is a no-op, and a delete that fails returns an error value.
- The rest of the demo (lines 222-232) is not modelled. Its last delete is not awaited, so it races with the `showCurrentCart` that follows.
- `ProductInCart` is a value (`Line`) in a sequence field that the cart methods reassign. The original updates the found line object in place.
- Supermarket.Cart.DeleteProduct returns a copy of the remaining lines. The original resolves with the cart's own `products` array (task.js:103, 108). A caller holding that array would see later adds push into it (task.js:66) or raise a line's quantity in place (task.js:64). The model does not capture that aliasing.
- The catalog is a module-level array in the original. Here it is handed to the `Cart` constructor (`Cart.catalog`), and seed SKUs must be distinct.
- Quantities, prices and stock are natural numbers. Negative and fractional quantities, which the original does not reject, are not modelled.
- CartSpec.PriceOf and CartSpec.CategoryOf return 0 and "" for a SKU missing from the catalog, where the original would throw. `Inv` rules such lines out, and every cart method requires it.
- Supermarket.Cart.DecreaseStockQuantity and Supermarket.Cart.IncreaseStockQuantity require the SKU to be in the catalog; the original throws a TypeError otherwise. `Supermarket.Cart.DecreaseProductQuantity` likewise requires the SKU to have a line. Their callers only reach them after the lookups succeed.
- Supermarket.Cart.CleanCategories and Supermarket.Cart.CalculateTotalPrice require every line to be in the catalog; the original throws otherwise.
- Supermarket.Cart.GetQuantityOfProductInCart returns none for a SKU without a line, where the original throws a TypeError. `DeleteProduct` turns that into the `NotInCart` error, which the original delivers as a rejected promise.
- Adding a product whose stock is 0 appends (or keeps) a line of quantity 0 (task.js:51-52, 64-66). That line stays until a delete filters it out. So "no empty line" holds after a delete (`DeleteRebuildsDerivedState`), not after an add.
