/** The shopping cart of shoppingCart/shoppingCartLLD.js: products, per-item
    discount strategies, cart items, and the cart whose item and discount lists
    change in place. Prices are exact reals and quantities natural numbers. */
module Cart {
  import opened Common

  datatype Product = Product(id: string, name: string, price: real, category: string, brand: Option<string>)

  /** The three discount strategies an item or a cart can carry. */
  datatype Strategy =
    | Percentage(percentage: real)
    | BuyXGetYFree(buyQuantity: nat, freeQuantity: nat)
    | CategorySpecific(category: string, discountPercentage: real)

  /** A buy-X-get-Y strategy needs a non-empty set size to divide by. */
  predicate WellFormed(s: Strategy) {
    s.BuyXGetYFree? ==> s.buyQuantity + s.freeQuantity > 0
  }

  /** A strategy that discounts by a percentage between 0 and 100 (or gives items away). */
  predicate Bounded(s: Strategy) {
    WellFormed(s) &&
    (s.Percentage? ==> 0.0 <= s.percentage <= 100.0) &&
    (s.CategorySpecific? ==> 0.0 <= s.discountPercentage <= 100.0)
  }

  /** The number of units a buy-X-get-Y customer pays for: X per full set of X+Y,
      and up to X of the incomplete last set. */
  function PaidCount(quantity: nat, buy: nat, free: nat): nat
    requires buy + free > 0
  {
    var setSize := buy + free;
    (quantity / setSize) * buy + (if quantity % setSize < buy then quantity % setSize else buy)
  }

  /** The undiscounted price of `quantity` units. */
  function FullPrice(product: Product, quantity: nat): real {
    Mul(product.price, quantity as real)
  }

  /** The price a strategy charges for `quantity` units of a product. */
  function Apply(s: Strategy, product: Product, quantity: nat): real
    requires WellFormed(s)
  {
    match s
    case Percentage(p) => Mul(FullPrice(product, quantity), 1.0 - p / 100.0)
    case BuyXGetYFree(x, y) => Mul(product.price, PaidCount(quantity, x, y) as real)
    case CategorySpecific(c, p) =>
      if product.category == c then Mul(FullPrice(product, quantity), 1.0 - p / 100.0)
      else FullPrice(product, quantity)
  }

  datatype CartItem = CartItem(product: Product, quantity: nat, discountStrategy: Option<Strategy>)

  predicate ItemWellFormed(item: CartItem) {
    item.discountStrategy.Some? ==> WellFormed(item.discountStrategy.value)
  }

  /** CartItem.getPrice: the strategy's price, or the full price without one. */
  function GetPrice(item: CartItem): real
    requires ItemWellFormed(item)
  {
    match item.discountStrategy
    case Some(s) => Apply(s, item.product, item.quantity)
    case None => FullPrice(item.product, item.quantity)
  }

  predicate AllWellFormed(items: seq<CartItem>) {
    forall i | 0 <= i < |items| :: ItemWellFormed(items[i])
  }

  /** No two items of the cart are for the same product. */
  predicate UniqueIds(items: seq<CartItem>) {
    forall i, j | 0 <= i < j < |items| :: items[i].product.id != items[j].product.id
  }

  predicate HasProduct(items: seq<CartItem>, productId: string) {
    exists i | 0 <= i < |items| :: items[i].product.id == productId
  }

  /** getItemCount: the quantities added up, first item first. */
  function ItemCount(items: seq<CartItem>): nat {
    if items == [] then 0 else ItemCount(items[..|items| - 1]) + items[|items| - 1].quantity
  }

  /** calculateSubtotal: the items' prices added up, first item first. */
  function Subtotal(items: seq<CartItem>): real
    requires AllWellFormed(items)
  {
    if items == [] then 0.0 else Subtotal(items[..|items| - 1]) + GetPrice(items[|items| - 1])
  }

  /** The position of the first item for a product (Array.prototype.find). */
  function IndexOf(items: seq<CartItem>, productId: string): (r: Option<nat>)
    ensures r.Some? ==> r.value < |items| && items[r.value].product.id == productId
    ensures r.Some? ==> forall j | 0 <= j < r.value :: items[j].product.id != productId
    ensures r.None? <==> !HasProduct(items, productId)
    decreases |items|
  {
    if items == [] then None
    else if items[0].product.id == productId then Some(0)
    else match IndexOf(items[1..], productId)
      case None =>
        assert forall i | 1 <= i < |items| :: items[i] == items[1..][i - 1];
        None
      case Some(i) => Some(i + 1)
  }

  /** removeItem's filter: the items for every other product, in their order. */
  function Without(items: seq<CartItem>, productId: string): seq<CartItem> {
    if items == [] then []
    else (if items[0].product.id == productId then [] else [items[0]]) + Without(items[1..], productId)
  }

  /** What cart-level strategy `s` takes off one item: its full price minus what `s` would charge. */
  function Saving(s: Strategy, item: CartItem): real
    requires WellFormed(s)
  {
    FullPrice(item.product, item.quantity) - Apply(s, item.product, item.quantity)
  }

  /** What `s` takes off all items, first item first. */
  function Savings(s: Strategy, items: seq<CartItem>): real
    requires WellFormed(s)
  {
    if items == [] then 0.0 else Savings(s, items[..|items| - 1]) + Saving(s, items[|items| - 1])
  }

  /** What every cart-level strategy takes off, first strategy first. */
  function Reductions(discounts: seq<Strategy>, items: seq<CartItem>): real
    requires forall d | d in discounts :: WellFormed(d)
  {
    if discounts == [] then 0.0
    else Reductions(discounts[..|discounts| - 1], items) + Savings(discounts[|discounts| - 1], items)
  }

  /** ShoppingCart.calculateTotal: the subtotal less every cart-level saving. */
  function CartTotal(items: seq<CartItem>, discounts: seq<Strategy>): real
    requires AllWellFormed(items) && forall d | d in discounts :: WellFormed(d)
  {
    Subtotal(items) - Reductions(discounts, items)
  }

  class ShoppingCart {
    var items: seq<CartItem>
    var discounts: seq<Strategy>

    ghost predicate Valid()
      reads this
    {
      UniqueIds(items) && AllWellFormed(items) && forall d | d in discounts :: WellFormed(d)
    }

    constructor()
      ensures Valid() && items == [] && discounts == []
    {
      items := [];
      discounts := [];
    }

    /** Adds units of a product: an item already in the cart for that product
        takes the extra units and keeps its own strategy; otherwise a new item
        goes at the end. */
    method AddItem(product: Product, quantity: nat, discountStrategy: Option<Strategy>)
      requires Valid()
      requires discountStrategy.Some? ==> WellFormed(discountStrategy.value)
      modifies this
      ensures Valid() && discounts == old(discounts)
      ensures HasProduct(old(items), product.id) ==>
        |items| == |old(items)| &&
        forall i | 0 <= i < |items| :: items[i] ==
          if old(items)[i].product.id == product.id then old(items)[i].(quantity := old(items)[i].quantity + quantity)
          else old(items)[i]
      ensures !HasProduct(old(items), product.id) ==> items == old(items) + [CartItem(product, quantity, discountStrategy)]
      ensures ItemCount(items) == ItemCount(old(items)) + quantity
    {
      match IndexOf(items, product.id)
      case Some(i) =>
        var item := items[i];
        CountUpdate(items, i, item.(quantity := item.quantity + quantity));
        items := items[i := item.(quantity := item.quantity + quantity)];
      case None =>
        var item := CartItem(product, quantity, discountStrategy);
        assert (items + [item])[..|items|] == items;
        items := items + [item];
    }

    /** Drops every item for a product. */
    method RemoveItem(productId: string)
      requires Valid()
      modifies this
      ensures Valid() && discounts == old(discounts)
      ensures items == Without(old(items), productId)
    {
      WithoutKeeps(items, productId);
      items := Without(items, productId);
    }

    /** Sets the quantity of the item for a product; nothing happens when there is none. */
    method UpdateQuantity(productId: string, newQuantity: nat)
      requires Valid()
      modifies this
      ensures Valid() && discounts == old(discounts)
      ensures |items| == |old(items)|
      ensures forall i | 0 <= i < |items| ::
                items[i] == if old(items)[i].product.id == productId then old(items)[i].(quantity := newQuantity) else old(items)[i]
      ensures !HasProduct(old(items), productId) ==> items == old(items)
    {
      match IndexOf(items, productId)
      case Some(i) =>
        items := items[i := items[i].(quantity := newQuantity)];
      case None =>
    }

    method ApplyCartLevelDiscount(discountStrategy: Strategy)
      requires Valid() && WellFormed(discountStrategy)
      modifies this
      ensures Valid() && items == old(items)
      ensures discounts == old(discounts) + [discountStrategy]
    {
      discounts := discounts + [discountStrategy];
    }

    method ClearCart()
      modifies this
      ensures Valid() && items == [] && discounts == []
    {
      items := [];
      discounts := [];
    }

    /** The subtotal with every cart-level strategy's saving taken off every item. */
    method CalculateTotal() returns (total: real)
      requires Valid()
      ensures total == CartTotal(items, discounts)
    {
      total := Subtotal(items);
      for d := 0 to |discounts|
        invariant total == Subtotal(items) - Reductions(discounts[..d], items)
      {
        var discount := discounts[d];
        for k := 0 to |items|
          invariant total == Subtotal(items) - Reductions(discounts[..d], items) - Savings(discount, items[..k])
        {
          total := total - (FullPrice(items[k].product, items[k].quantity) - Apply(discount, items[k].product, items[k].quantity));
          assert items[..k + 1][..k] == items[..k];
        }
        assert items[..|items|] == items;
        assert discounts[..d + 1][..d] == discounts[..d];
      }
      assert discounts[..|discounts|] == discounts;
    }
  }

  // ---------------------------------------------------------------------
  // Properties of the cart

  /** Changing one item's quantity changes the count by the difference. */
  lemma {:induction false} CountUpdate(items: seq<CartItem>, i: nat, item: CartItem)
    requires i < |items|
    ensures ItemCount(items[i := item]) == ItemCount(items) - items[i].quantity + item.quantity
    decreases |items|
  {
    var n := |items| - 1;
    if i < n {
      assert items[i := item][..n] == items[..n][i := item];
      CountUpdate(items[..n], i, item);
    } else {
      assert items[i := item][..n] == items[..n];
    }
  }

  /** The filter keeps exactly the items for other products, in their order: it
      distributes over concatenation, leaves a cart without the product alone,
      and keeps ids unique. */
  lemma {:induction false} WithoutConcat(a: seq<CartItem>, b: seq<CartItem>, productId: string)
    ensures Without(a + b, productId) == Without(a, productId) + Without(b, productId)
    decreases |a|
  {
    if a != [] {
      assert (a + b)[1..] == a[1..] + b;
      WithoutConcat(a[1..], b, productId);
    } else {
      assert a + b == b;
    }
  }

  lemma {:induction false} WithoutMembers(items: seq<CartItem>, productId: string)
    ensures forall x | x in Without(items, productId) :: x in items && x.product.id != productId
    ensures forall x | x in items && x.product.id != productId :: x in Without(items, productId)
    decreases |items|
  {
    if items != [] {
      WithoutMembers(items[1..], productId);
      forall x | x in items && x.product.id != productId ensures x in Without(items, productId) {
        if x != items[0] {
          assert x in items[1..];
        }
      }
    }
  }

  lemma WithoutKeeps(items: seq<CartItem>, productId: string)
    requires UniqueIds(items) && AllWellFormed(items)
    ensures UniqueIds(Without(items, productId)) && AllWellFormed(Without(items, productId))
    ensures !HasProduct(Without(items, productId), productId)
  {
    var r := Without(items, productId);
    WithoutMembers(items, productId);
    WithoutUnique(items, productId);
    forall i | 0 <= i < |r| ensures r[i].product.id != productId && ItemWellFormed(r[i]) {
      assert r[i] in r;
    }
  }

  lemma {:induction false} WithoutUnique(items: seq<CartItem>, productId: string)
    requires UniqueIds(items)
    ensures UniqueIds(Without(items, productId))
    decreases |items|
  {
    if items != [] {
      var tail := items[1..];
      assert UniqueIds(tail) by {
        forall i, j | 0 <= i < j < |tail| ensures tail[i].product.id != tail[j].product.id {
          assert tail[i] == items[i + 1] && tail[j] == items[j + 1];
        }
      }
      WithoutUnique(tail, productId);
      WithoutMembers(tail, productId);
      var rest := Without(tail, productId);
      forall x | x in rest ensures x.product.id != items[0].product.id {
        var j :| 0 <= j < |tail| && tail[j] == x;
        assert items[j + 1] == x;
      }
      if items[0].product.id != productId {
        UniqueCons(items[0], rest);
      }
    }
  }

  lemma UniqueCons(x: CartItem, rest: seq<CartItem>)
    requires UniqueIds(rest) && forall y | y in rest :: y.product.id != x.product.id
    ensures UniqueIds([x] + rest)
  {
    var r := [x] + rest;
    forall i, j | 0 <= i < j < |r| ensures r[i].product.id != r[j].product.id {
      assert r[j] == rest[j - 1] && r[j] in rest;
      if i > 0 {
        assert r[i] == rest[i - 1];
      }
    }
  }

  lemma WithoutAbsent(items: seq<CartItem>, productId: string)
    requires !HasProduct(items, productId)
    ensures Without(items, productId) == items
  {
    if items != [] {
      assert !HasProduct(items[1..], productId) by {
        forall i | 0 <= i < |items[1..]| ensures items[1..][i].product.id != productId {
          assert items[1..][i] == items[i + 1];
        }
      }
      WithoutAbsent(items[1..], productId);
      assert items == [items[0]] + items[1..];
    }
  }

  /** Buy-X-get-Y never charges for more units than were bought, and each
      further full set of X+Y units costs exactly X more. */
  lemma PaidAtMostQuantity(quantity: nat, buy: nat, free: nat)
    requires buy + free > 0
    ensures PaidCount(quantity, buy, free) <= quantity
  {
    var n := buy + free;
    var sets := quantity / n;
    assert quantity == sets * n + quantity % n;
    assert sets * n == sets * buy + sets * free;
  }

  lemma PaidPerSet(quantity: nat, buy: nat, free: nat)
    requires buy + free > 0
    ensures PaidCount(quantity + buy + free, buy, free) == PaidCount(quantity, buy, free) + buy
  {
    var n := buy + free;
    var q := quantity + n;
    var s, r := quantity / n, quantity % n;
    assert quantity == s * n + r;
    assert q == (s + 1) * n + r;
    DivModUnique(q, n, s + 1, r);
  }

  lemma DivModUnique(q: nat, n: nat, s: nat, r: nat)
    requires n > 0 && r < n && q == s * n + r
    ensures q / n == s && q % n == r
  {
    var s', r' := q / n, q % n;
    assert q == s' * n + r';
    assert s * n < (s' + 1) * n;
    assert s' * n < (s + 1) * n;
    FactorLess(s, s' + 1, n);
    FactorLess(s', s + 1, n);
  }

  lemma FactorLess(a: nat, b: nat, n: nat)
    requires n > 0 && a * n < b * n
    ensures a < b
  {
    assert a * n - b * n == (a - b) * n;
  }

  /** Buy 2 get 1 free on 3 items pays for 2; on 7 items, for 5. */
  lemma BuyTwoGetOneExample()
    ensures PaidCount(3, 2, 1) == 2 && PaidCount(7, 2, 1) == 5
  {
  }

  /** A category strategy prices a matching product like the percentage
      strategy and any other product at full price. */
  lemma CategoryPricing(category: string, p: real, product: Product, quantity: nat)
    ensures product.category == category ==> Apply(CategorySpecific(category, p), product, quantity) == Apply(Percentage(p), product, quantity)
    ensures product.category != category ==> Apply(CategorySpecific(category, p), product, quantity) == FullPrice(product, quantity)
  {
  }

  /** A bounded strategy on a non-negative price charges between 0 and the full price. */
  lemma ApplyWithinFullPrice(s: Strategy, product: Product, quantity: nat)
    requires Bounded(s) && product.price >= 0.0
    ensures 0.0 <= Apply(s, product, quantity) <= FullPrice(product, quantity)
  {
    var full := FullPrice(product, quantity);
    MulMono(0.0, quantity as real, product.price);
    match s
    case BuyXGetYFree(x, y) =>
      PaidAtMostQuantity(quantity, x, y);
      MulMono(PaidCount(quantity, x, y) as real, quantity as real, product.price);
      MulMono(0.0, PaidCount(quantity, x, y) as real, product.price);
    case Percentage(p) =>
      MulMono(1.0 - p / 100.0, 1.0, full);
      MulMono(0.0, 1.0 - p / 100.0, full);
    case CategorySpecific(c, p) =>
      MulMono(1.0 - p / 100.0, 1.0, full);
      MulMono(0.0, 1.0 - p / 100.0, full);
  }

  /** Every cart-level saving is non-negative under bounded strategies, so the
      cart-level total never exceeds the subtotal, and equals it without
      cart-level strategies. */
  lemma {:induction false} SavingsNonNegative(s: Strategy, items: seq<CartItem>)
    requires Bounded(s) && forall i | 0 <= i < |items| :: items[i].product.price >= 0.0
    ensures Savings(s, items) >= 0.0
    decreases |items|
  {
    if items != [] {
      var last := items[|items| - 1];
      ApplyWithinFullPrice(s, last.product, last.quantity);
      SavingsNonNegative(s, items[..|items| - 1]);
    }
  }

  lemma {:induction false} TotalAtMostSubtotal(items: seq<CartItem>, discounts: seq<Strategy>)
    requires AllWellFormed(items) && forall d | d in discounts :: WellFormed(d) && Bounded(d)
    requires forall i | 0 <= i < |items| :: items[i].product.price >= 0.0
    ensures CartTotal(items, discounts) <= Subtotal(items)
    ensures discounts == [] ==> CartTotal(items, discounts) == Subtotal(items)
    decreases |discounts|
  {
    if discounts != [] {
      var prefix := discounts[..|discounts| - 1];
      assert forall d | d in prefix :: d in discounts;
      TotalAtMostSubtotal(items, prefix);
      SavingsNonNegative(discounts[|discounts| - 1], items);
    }
  }

  /** The cart of the first demonstration: a laptop at 1500, three T-shirts at
      25 on buy 2 get 1 free and two books at 50 with 10% off, with 15% off
      electronics on the whole cart. It holds 6 units, its subtotal is 1640
      and its total 1415. */
  lemma DemoCart()
    ensures var laptop := Product("ELEC001", "Gaming Laptop", 1500.0, "electronics", Some("AlienWare"));
      var tshirt := Product("CLOTH001", "Graphic T-Shirt", 25.0, "clothing", None);
      var book := Product("BOOK001", "Programming Cookbook", 50.0, "books", None);
      var items := [CartItem(laptop, 1, None), CartItem(tshirt, 3, Some(BuyXGetYFree(2, 1))), CartItem(book, 2, Some(Percentage(10.0)))];
      ItemCount(items) == 6 && Subtotal(items) == 1640.0 && CartTotal(items, [CategorySpecific("electronics", 15.0)]) == 1415.0
  {
    var laptop := Product("ELEC001", "Gaming Laptop", 1500.0, "electronics", Some("AlienWare"));
    var tshirt := Product("CLOTH001", "Graphic T-Shirt", 25.0, "clothing", None);
    var book := Product("BOOK001", "Programming Cookbook", 50.0, "books", None);
    var items := [CartItem(laptop, 1, None), CartItem(tshirt, 3, Some(BuyXGetYFree(2, 1))), CartItem(book, 2, Some(Percentage(10.0)))];
    assert GetPrice(items[0]) == 1500.0;
    assert PaidCount(3, 2, 1) == 2;
    assert GetPrice(items[1]) == 50.0;
    assert GetPrice(items[2]) == 90.0;
    assert items[..2][..1] == items[..1] && items[..1][..0] == [];
    assert Subtotal(items[..1]) == 1500.0;
    assert Subtotal(items[..2]) == 1550.0;
    assert ItemCount(items[..1]) == 1 && ItemCount(items[..2]) == 4;
    var d := CategorySpecific("electronics", 15.0);
    assert Saving(d, items[0]) == 225.0 && Saving(d, items[1]) == 0.0 && Saving(d, items[2]) == 0.0;
    assert Savings(d, items[..1]) == 225.0;
    assert Savings(d, items[..2]) == 225.0;
    assert Savings(d, items) == 225.0;
    assert [d][..0] == [];
  }
}
