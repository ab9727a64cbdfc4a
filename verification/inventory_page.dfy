/**
 * The display rules of the inventory page: the three counters above the
 * table, each row's stock status, the red highlight of low quantities and
 * the zero-padded quantity text.
 */
module InventoryPage {
  import opened Text
  import opened Tables
  import opened DataActions

  datatype StockStatus = Available | Critical | Depleted

  /** The status badge of one row. */
  function Status(quantity: int): (s: StockStatus)
    ensures s == Available <==> quantity > 10
    ensures s == Critical <==> 0 < quantity <= 10
    ensures s == Depleted <==> quantity <= 0
  {
    if quantity > 10 then Available else if quantity > 0 then Critical else Depleted
  }

  /** The "Low Stock Alerts" counter's test. */
  predicate IsLowStockAlert(quantity: int) {
    0 < quantity < 10
  }

  /** The bar and the number are drawn in the alarm colour below ten. */
  predicate IsHighlighted(quantity: int) {
    quantity < 10
  }

  function CountLowStockAlerts(products: seq<Product>): (n: nat)
    ensures n <= |products|
  {
    if products == [] then 0
    else (if IsLowStockAlert(products[0].quantity) then 1 else 0) + CountLowStockAlerts(products[1..])
  }

  function CountOutOfStock(products: seq<Product>): (n: nat)
    ensures n <= |products|
  {
    if products == [] then 0
    else (if products[0].quantity == 0 then 1 else 0) + CountOutOfStock(products[1..])
  }

  function CountNegative(products: seq<Product>): (n: nat)
    ensures n <= |products|
  {
    if products == [] then 0
    else (if products[0].quantity < 0 then 1 else 0) + CountNegative(products[1..])
  }

  /** A product added at the end adds one to "Low Stock Alerts" exactly when 0 < quantity < 10. */
  lemma {:induction false} CountLowStockAlertsAppend(products: seq<Product>, p: Product)
    ensures CountLowStockAlerts(products + [p]) ==
      CountLowStockAlerts(products) + (if 0 < p.quantity < 10 then 1 else 0)
  {
    if products != [] {
      assert (products + [p])[1..] == products[1..] + [p];
      CountLowStockAlertsAppend(products[1..], p);
    }
  }

  /** A product added at the end adds one to "Out of Stock" exactly when its quantity is 0. */
  lemma {:induction false} CountOutOfStockAppend(products: seq<Product>, p: Product)
    ensures CountOutOfStock(products + [p]) == CountOutOfStock(products) + (if p.quantity == 0 then 1 else 0)
  {
    if products != [] {
      assert (products + [p])[1..] == products[1..] + [p];
      CountOutOfStockAppend(products[1..], p);
    }
  }

  /** A product added at the end adds one to the negative count exactly when its quantity is below 0. */
  lemma {:induction false} CountNegativeAppend(products: seq<Product>, p: Product)
    ensures CountNegative(products + [p]) == CountNegative(products) + (if p.quantity < 0 then 1 else 0)
  {
    if products != [] {
      assert (products + [p])[1..] == products[1..] + [p];
      CountNegativeAppend(products[1..], p);
    }
  }

  /**
   * The low-stock and out-of-stock counters never count the same product:
   * together they are at most "Total Inventory Items".
   */
  lemma {:induction false} CountersWithinTotal(products: seq<Product>)
    ensures CountLowStockAlerts(products) + CountOutOfStock(products) <= |products|
  {
    if products != [] {
      CountersWithinTotal(products[1..]);
    }
  }

  /**
   * The dashboard's low-stock count (quantity below 10) over the caller's
   * products is this page's low-stock alerts plus its out-of-stock count
   * plus the products with a negative quantity, which neither counter shows.
   */
  lemma {:induction false} DashboardLowStockSplits(products: seq<Product>, org: OrgId)
    ensures var mine := ProductsOf(products, org);
      CountLowStock(products, org) == CountLowStockAlerts(mine) + CountOutOfStock(mine) + CountNegative(mine)
  {
    if products != [] {
      DashboardLowStockSplits(products[1..], org);
    }
  }

  /** Quantity 10 is labelled Critical but is neither an alert nor highlighted. */
  lemma TenIsCriticalWithoutAlert()
    ensures Status(10) == Critical && !IsLowStockAlert(10) && !IsHighlighted(10)
  {
  }

  /** Every low-stock alert is Critical and highlighted; every highlighted row is Critical or Depleted. */
  lemma AlertAgreesWithBadge(q: int)
    ensures IsLowStockAlert(q) ==> Status(q) == Critical && IsHighlighted(q)
    ensures IsHighlighted(q) <==> Status(q) != Available && q != 10
  {
  }

  /** `quantity.toString().padStart(3, '0')`. */
  function QuantityText(quantity: int): string {
    PadStart(IntToString(quantity), 3, '0')
  }

  /**
   * For a quantity of zero or more the text is its decimal digits, padded
   * on the left with '0' to at least three characters, and it still
   * denotes the quantity.
   */
  lemma QuantityTextDenotes(q: nat)
    ensures var t := QuantityText(q);
      && |t| == (if |Decimal(q)| >= 3 then |Decimal(q)| else 3)
      && t[|t| - |Decimal(q)|..] == Decimal(q)
      && AllDigitsIn(t, 10) && ValueIn(t, 10) == q
  {
    var d := Decimal(q);
    var t := QuantityText(q);
    var z := |t| - |d|;
    assert t == seq(z, _ => '0') + d by {
      assert t[z..] == d;
      assert forall k | 0 <= k < z :: t[k] == '0';
    }
    LeadingZeros(z, d, 10);
  }

  /** A negative quantity is padded in front of its sign. */
  lemma NegativeQuantityText()
    ensures QuantityText(-5) == "0-5"
  {
    assert Decimal(5) == "5";
  }
}
