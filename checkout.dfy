/** The checkout half of shoppingCart/shoppingCartLLD.js: discount conditions,
    the all-conditions eligibility rule, configured discounts and the checkout
    that keeps the eligible ones and totals them. The current time, which the
    SEASONAL condition reads from the clock, is a parameter. */
module Discounts {
  import opened Common
  import opened Cart

  datatype Condition =
    | TotalCartValue(minValue: real)
    | ProductCategory(categories: seq<string>)
    | SpecificProducts(productIds: seq<string>)
    | FirstPurchase
    | Seasonal(startDate: int, endDate: int)
    | UnknownCondition(conditionType: string)

  datatype CustomerProfile = CustomerProfile(id: string, isFirstPurchase: bool)

  /** Whether one condition holds for a cart and a customer at time `now`. */
  predicate Holds(c: Condition, items: seq<CartItem>, profile: CustomerProfile, now: int)
    requires AllWellFormed(items)
  {
    match c
    case TotalCartValue(minValue) => Subtotal(items) >= minValue
    case ProductCategory(categories) => exists i | 0 <= i < |items| :: items[i].product.category in categories
    case SpecificProducts(productIds) => exists i | 0 <= i < |items| :: items[i].product.id in productIds
    case FirstPurchase => profile.isFirstPurchase
    case Seasonal(startDate, endDate) => startDate <= now <= endDate
    case UnknownCondition(_) => false
  }

  /** DiscountEligibilityChecker.checkEligibility: the conditions are checked in
      order and the first that fails decides. The result is true exactly when
      every condition holds: always with no conditions, never with a condition
      of an unknown type. */
  function CheckEligibility(conditions: seq<Condition>, items: seq<CartItem>, profile: CustomerProfile, now: int): (r: bool)
    requires AllWellFormed(items)
    ensures r <==> forall i | 0 <= i < |conditions| :: Holds(conditions[i], items, profile, now)
    ensures conditions == [] ==> r
    ensures (exists i | 0 <= i < |conditions| :: conditions[i].UnknownCondition?) ==> !r
    decreases |conditions|
  {
    if conditions == [] then true
    else if !Holds(conditions[0], items, profile, now) then false
    else
      var rest := CheckEligibility(conditions[1..], items, profile, now);
      assert forall i | 1 <= i < |conditions| :: conditions[i] == conditions[1..][i - 1];
      rest
  }

  datatype DiscountType = PercentageOff | FixedAmount | BuyXGetY | Bundle | OtherType(name: string)

  /** A configured discount; the constructor keeps only these fields of its configuration. */
  datatype Discount = Discount(id: string, name: string, discountType: DiscountType, value: real, conditions: seq<Condition>)

  /** A bundle discount reads a product list the constructor never stored, so applying it throws. */
  datatype DiscountError = BundleProductsMissing

  /** Discount.apply. A buy-X-get-Y discount looks for items in a category the
      constructor never stored, finds none and gives 0. */
  function ApplyDiscount(d: Discount, items: seq<CartItem>, profile: CustomerProfile, now: int): Result<real, DiscountError>
    requires AllWellFormed(items)
  {
    if !CheckEligibility(d.conditions, items, profile, now) then Ok(0.0)
    else match d.discountType
      case PercentageOff => Ok(Mul(Subtotal(items), d.value / 100.0))
      case FixedAmount => Ok(Min(d.value, Subtotal(items)))
      case BuyXGetY => Ok(0.0)
      case Bundle => Err(BundleProductsMissing)
      case OtherType(_) => Ok(0.0)
  }

  /** The discounts whose conditions hold, in registration order. */
  function EligibleDiscounts(discounts: seq<Discount>, items: seq<CartItem>, profile: CustomerProfile, now: int): seq<Discount>
    requires AllWellFormed(items)
  {
    if discounts == [] then []
    else
      var rest := EligibleDiscounts(discounts[1..], items, profile, now);
      if CheckEligibility(discounts[0].conditions, items, profile, now) then [discounts[0]] + rest else rest
  }

  /** The reduce over the applied discounts: their amounts added up, first
      discount first; the first that throws ends it. */
  function TotalDiscount(applied: seq<Discount>, items: seq<CartItem>, profile: CustomerProfile, now: int): Result<real, DiscountError>
    requires AllWellFormed(items)
  {
    if applied == [] then Ok(0.0)
    else match TotalDiscount(applied[..|applied| - 1], items, profile, now)
      case Err(e) => Err(e)
      case Ok(sum) =>
        match ApplyDiscount(applied[|applied| - 1], items, profile, now)
        case Err(e) => Err(e)
        case Ok(amount) => Ok(sum + amount)
  }

  datatype CheckoutResult = CheckoutResult(subtotal: real, discounts: seq<Discount>, totalDiscount: real, finalTotal: real)

  class Checkout {
    const cart: ShoppingCart
    const customerProfile: CustomerProfile
    var availableDiscounts: seq<Discount>
    var appliedDiscounts: seq<Discount>

    constructor(cart: ShoppingCart, customerProfile: CustomerProfile)
      ensures this.cart == cart && this.customerProfile == customerProfile
      ensures availableDiscounts == [] && appliedDiscounts == []
    {
      this.cart := cart;
      this.customerProfile := customerProfile;
      availableDiscounts := [];
      appliedDiscounts := [];
    }

    method RegisterDiscount(discount: Discount)
      modifies this
      ensures availableDiscounts == old(availableDiscounts) + [discount]
      ensures appliedDiscounts == old(appliedDiscounts)
    {
      availableDiscounts := availableDiscounts + [discount];
    }

    /** Keeps the eligible discounts as the applied ones (even when one of them
        then throws) and takes their total off the subtotal. */
    method CalculateTotal(now: int) returns (r: Result<CheckoutResult, DiscountError>)
      requires cart.Valid()
      modifies this
      ensures availableDiscounts == old(availableDiscounts)
      ensures appliedDiscounts == EligibleDiscounts(availableDiscounts, cart.items, customerProfile, now)
      ensures TotalDiscount(appliedDiscounts, cart.items, customerProfile, now).Err? <==> r.Err?
      ensures r.Ok? ==>
        r.value.subtotal == Subtotal(cart.items) && r.value.discounts == appliedDiscounts &&
        Ok(r.value.totalDiscount) == TotalDiscount(appliedDiscounts, cart.items, customerProfile, now) &&
        r.value.finalTotal == r.value.subtotal - r.value.totalDiscount
    {
      var subtotal := Subtotal(cart.items);
      appliedDiscounts := EligibleDiscounts(availableDiscounts, cart.items, customerProfile, now);
      var total := TotalDiscount(appliedDiscounts, cart.items, customerProfile, now);
      if total.Err? {
        return Err(total.error);
      }
      r := Ok(CheckoutResult(subtotal, appliedDiscounts, total.value, subtotal - total.value));
    }
  }

  // ---------------------------------------------------------------------
  // Properties of discounts and checkout

  /** `a` is `b` with some elements left out and the others kept in their order. */
  predicate Subsequence<T(==)>(a: seq<T>, b: seq<T>)
    decreases |b|
  {
    if b == [] then a == []
    else (a != [] && a[0] == b[0] && Subsequence(a[1..], b[1..])) || Subsequence(a, b[1..])
  }

  /** The applied discounts are exactly the eligible registered ones, in registration order. */
  lemma {:induction false} EligibleExactly(discounts: seq<Discount>, items: seq<CartItem>, profile: CustomerProfile, now: int)
    requires AllWellFormed(items)
    ensures forall d | d in EligibleDiscounts(discounts, items, profile, now) :: d in discounts && CheckEligibility(d.conditions, items, profile, now)
    ensures forall d | d in discounts && CheckEligibility(d.conditions, items, profile, now) :: d in EligibleDiscounts(discounts, items, profile, now)
    ensures |EligibleDiscounts(discounts, items, profile, now)| <= |discounts|
    ensures Subsequence(EligibleDiscounts(discounts, items, profile, now), discounts)
    decreases |discounts|
  {
    if discounts != [] {
      EligibleExactly(discounts[1..], items, profile, now);
      var rest := EligibleDiscounts(discounts[1..], items, profile, now);
      assert ([discounts[0]] + rest)[1..] == rest;
      forall d | d in discounts && CheckEligibility(d.conditions, items, profile, now)
        ensures d in EligibleDiscounts(discounts, items, profile, now)
      {
        if d != discounts[0] {
          assert d in discounts[1..];
        }
      }
    }
  }

  /** An ineligible discount is worth 0; a fixed amount is capped by the
      subtotal; only a bundle discount throws. */
  lemma ApplyDiscountCases(d: Discount, items: seq<CartItem>, profile: CustomerProfile, now: int)
    requires AllWellFormed(items)
    ensures !CheckEligibility(d.conditions, items, profile, now) ==> ApplyDiscount(d, items, profile, now) == Ok(0.0)
    ensures d.discountType == FixedAmount && CheckEligibility(d.conditions, items, profile, now) ==>
      ApplyDiscount(d, items, profile, now).Ok? && ApplyDiscount(d, items, profile, now).value <= Subtotal(items)
    ensures ApplyDiscount(d, items, profile, now).Err? <==> d.discountType == Bundle && CheckEligibility(d.conditions, items, profile, now)
    ensures d.discountType.OtherType? ==> ApplyDiscount(d, items, profile, now) == Ok(0.0)
  {
  }

  /** With a non-negative subtotal, a non-negative fixed amount or a percentage
      between 0 and 100 takes off between 0 and the subtotal. */
  lemma ApplyDiscountBounded(d: Discount, items: seq<CartItem>, profile: CustomerProfile, now: int)
    requires AllWellFormed(items) && Subtotal(items) >= 0.0 && d.value >= 0.0
    requires d.discountType == FixedAmount || (d.discountType == PercentageOff && d.value <= 100.0)
    ensures ApplyDiscount(d, items, profile, now).Ok?
    ensures 0.0 <= ApplyDiscount(d, items, profile, now).value <= Subtotal(items)
  {
    if d.discountType == PercentageOff {
      MulMono(d.value / 100.0, 1.0, Subtotal(items));
      MulMono(0.0, d.value / 100.0, Subtotal(items));
    }
  }

  /** Without bundle discounts among the applied ones the total never throws and
      is the sum of the applied amounts; without applied discounts it is 0. */
  lemma {:induction false} TotalWithoutBundles(applied: seq<Discount>, items: seq<CartItem>, profile: CustomerProfile, now: int)
    requires AllWellFormed(items)
    requires forall i | 0 <= i < |applied| :: applied[i].discountType != Bundle
    ensures TotalDiscount(applied, items, profile, now).Ok?
    ensures applied == [] ==> TotalDiscount(applied, items, profile, now) == Ok(0.0)
    decreases |applied|
  {
    if applied != [] {
      TotalWithoutBundles(applied[..|applied| - 1], items, profile, now);
    }
  }

  // The second demonstration: a laptop at 1500, two mice at 100 and a book
  // at 50, for a first-time customer, with 15% off electronics over 1000,
  // 100 off a first purchase and an unconditional bundle deal.

  function DemoItems(): seq<CartItem> {
    [CartItem(Product("ELEC001", "Gaming Laptop", 1500.0, "electronics", None), 1, None),
     CartItem(Product("ELEC002", "Gaming Mouse", 100.0, "electronics", None), 2, None),
     CartItem(Product("BOOK001", "Programming Book", 50.0, "books", None), 1, None)]
  }

  function SummerSale(): Discount {
    Discount("SUMMER_SALE", "Summer Electronics Sale", PercentageOff, 15.0,
      [ProductCategory(["electronics"]), TotalCartValue(1000.0)])
  }

  function FirstPurchaseDiscount(): Discount {
    Discount("FIRST_PURCHASE", "First Purchase Discount", FixedAmount, 100.0, [FirstPurchase])
  }

  function BundleDeal(): Discount {
    Discount("BUNDLE_DEAL", "Electronics Bundle Deal", Bundle, 50.0, [])
  }

  lemma DemoSubtotal()
    ensures AllWellFormed(DemoItems()) && Subtotal(DemoItems()) == 1750.0
  {
    var items := DemoItems();
    assert items[..2][..1] == items[..1] && items[..1][..0] == [];
    assert Subtotal(items[..1]) == 1500.0;
    assert Subtotal(items[..2]) == 1700.0;
  }

  /** All three demonstration discounts apply; the first two are worth 262.5 and 100. */
  lemma DemoAmounts(now: int)
    ensures AllWellFormed(DemoItems())
    ensures var profile := CustomerProfile("CUST001", true);
      CheckEligibility(SummerSale().conditions, DemoItems(), profile, now) &&
      CheckEligibility(FirstPurchaseDiscount().conditions, DemoItems(), profile, now) &&
      CheckEligibility(BundleDeal().conditions, DemoItems(), profile, now) &&
      ApplyDiscount(SummerSale(), DemoItems(), profile, now) == Ok(262.5) &&
      ApplyDiscount(FirstPurchaseDiscount(), DemoItems(), profile, now) == Ok(100.0)
  {
    DemoSubtotal();
    var profile := CustomerProfile("CUST001", true);
    assert Holds(SummerSale().conditions[0], DemoItems(), profile, now) by {
      assert DemoItems()[0].product.category in ["electronics"];
    }
    assert Holds(SummerSale().conditions[1], DemoItems(), profile, now);
  }

  /** The demonstration checkout keeps all three discounts; without the bundle
      deal they total 362.5, but the bundle deal throws, so the checkout does too. */
  lemma DemoCheckout(now: int)
    ensures AllWellFormed(DemoItems())
    ensures var profile := CustomerProfile("CUST001", true);
      var ds := [SummerSale(), FirstPurchaseDiscount(), BundleDeal()];
      EligibleDiscounts(ds, DemoItems(), profile, now) == ds &&
      TotalDiscount(ds[..2], DemoItems(), profile, now) == Ok(362.5) &&
      TotalDiscount(ds, DemoItems(), profile, now) == Err(BundleProductsMissing)
  {
    DemoAmounts(now);
    var profile := CustomerProfile("CUST001", true);
    var ds := [SummerSale(), FirstPurchaseDiscount(), BundleDeal()];
    assert ds[1..] == [FirstPurchaseDiscount(), BundleDeal()] && ds[1..][1..] == [BundleDeal()] && [BundleDeal()][1..] == [];
    assert EligibleDiscounts([BundleDeal()], DemoItems(), profile, now) == [BundleDeal()];
    assert EligibleDiscounts(ds[1..], DemoItems(), profile, now) == ds[1..];
    assert ds[..2][..1] == [SummerSale()] && [SummerSale()][..0] == [];
    assert TotalDiscount(ds[..2][..1], DemoItems(), profile, now) == Ok(262.5);
  }
}
