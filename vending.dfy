/** The vending machine's objects: shelves updated in place, the inventory that
    owns them, and the machine whose state, balance and selected shelf change
    with each customer action. Every method is proved against the transition
    functions of VendingSpec, whose properties are proved there. */
module Vending {
  import opened Common
  import opened VendingSpec

  /** One slot of the machine. */
  class ItemShelf {
    const id: ShelfId
    var item: Option<Item>
    var quantity: nat

    function Contents(): Shelf
      reads this
    {
      Shelf(item, quantity)
    }

    constructor(id: ShelfId)
      ensures this.id == id && Contents() == Shelf(None, 0)
    {
      this.id := id;
      item := None;
      quantity := 0;
    }

    /** Stocks the shelf: the item replaces whatever was there and the units add up. */
    method AddItem(item: Item, quantity: nat)
      modifies this
      ensures Contents() == ShelfAdd(old(Contents()), item, quantity)
    {
      this.item := Some(item);
      this.quantity := this.quantity + quantity;
    }

    /** Hands out one unit if there is one; an empty shelf gives nothing and stays as it is. */
    method DispenseItem() returns (r: Option<Item>)
      modifies this
      ensures item == old(item)
      ensures old(quantity) > 0 ==> quantity == old(quantity) - 1 && r == item
      ensures old(quantity) == 0 ==> quantity == 0 && r.None?
    {
      if quantity > 0 {
        quantity := quantity - 1;
        return item;
      }
      return None;
    }
  }

  /** The shelves of a machine, numbered 1 to the shelf count. */
  class Inventory {
    const shelves: map<ShelfId, ItemShelf>

    /** Each shelf is stored under its own id, so no two keys share a shelf. */
    ghost predicate Valid()
      reads shelves.Values
    {
      forall i | i in shelves :: shelves[i].id == i
    }

    /** What is on every shelf. */
    function Stock(): map<ShelfId, Shelf>
      reads shelves.Values
    {
      map i | i in shelves :: shelves[i].Contents()
    }

    constructor(shelfCount: int)
      ensures Valid() && fresh(shelves.Values)
      ensures Stock() == EmptyStock(shelfCount)
    {
      var made: map<ShelfId, ItemShelf> := map[];
      var i := 1;
      while i <= shelfCount
        invariant shelfCount < 1 ==> i == 1
        invariant shelfCount >= 1 ==> 1 <= i <= shelfCount + 1
        invariant forall j :: j in made <==> ShelfNumber(j, i - 1)
        invariant forall j | j in made :: fresh(made[j]) && made[j].id == j && made[j].Contents() == Shelf(None, 0)
      {
        var shelf := new ItemShelf(i);
        made := made[i := shelf];
        i := i + 1;
      }
      shelves := made;
    }

    /** Restocks a shelf; false and no change when the shelf does not exist. */
    method AddItem(shelfId: ShelfId, item: Item, quantity: nat) returns (ok: bool)
      requires Valid()
      modifies shelves.Values
      ensures Valid()
      ensures ok <==> shelfId in old(Stock())
      ensures ok ==> Stock() == old(Stock())[shelfId := ShelfAdd(old(Stock())[shelfId], item, quantity)]
      ensures !ok ==> Stock() == old(Stock())
    {
      if shelfId !in shelves {
        return false;
      }
      ghost var before := Stock();
      shelves[shelfId].AddItem(item, quantity);
      ok := true;
      forall i | i in shelves && i != shelfId ensures shelves[i].Contents() == before[i] {
        assert shelves[i].id != shelves[shelfId].id;
      }
    }

    /** The item on a shelf that still has units, and nothing otherwise. */
    method GetItem(shelfId: ShelfId) returns (r: Option<Item>)
      ensures r == ItemAt(Stock(), shelfId)
    {
      if shelfId in shelves && shelves[shelfId].quantity != 0 {
        return shelves[shelfId].item;
      }
      return None;
    }

    /** Takes one unit from an available shelf and returns its item. */
    method DispenseItem(shelfId: ShelfId) returns (r: Option<Item>)
      requires Valid()
      modifies shelves.Values
      ensures Valid()
      ensures Available(old(Stock()), shelfId) ==> r == old(Stock())[shelfId].item && Stock() == TakeOne(old(Stock()), shelfId)
      ensures !Available(old(Stock()), shelfId) ==> r.None? && Stock() == old(Stock())
    {
      if shelfId in shelves && shelves[shelfId].quantity != 0 {
        ghost var before := Stock();
        r := shelves[shelfId].DispenseItem();
        forall i | i in shelves && i != shelfId ensures shelves[i].Contents() == before[i] {
          assert shelves[i].id != shelves[shelfId].id;
        }
        return;
      }
      return None;
    }

    method IsItemAvailable(shelfId: ShelfId) returns (r: bool)
      ensures r <==> shelfId in Stock() && Stock()[shelfId].quantity > 0
    {
      return shelfId in shelves && shelves[shelfId].quantity != 0;
    }

    /** The price of the item a shelf can sell, 0 when it can sell none. */
    method GetItemPrice(shelfId: ShelfId) returns (r: real)
      ensures ItemAt(Stock(), shelfId).Some? ==> r == ItemAt(Stock(), shelfId).value.price
      ensures ItemAt(Stock(), shelfId).None? ==> r == 0.0
    {
      var item := GetItem(shelfId);
      r := if item.Some? then item.value.price else 0.0;
    }
  }

  /** The stock of a new machine: shelves 1 to the count, all empty. */
  function EmptyStock(shelfCount: int): (r: map<ShelfId, Shelf>)
    ensures forall i :: i in r <==> 1 <= i <= shelfCount
    ensures forall i | i in r :: r[i] == Shelf(None, 0)
  {
    map i | 1 <= i <= shelfCount && ShelfNumber(i, shelfCount) :: Shelf(None, 0)
  }

  /** The shelves are numbered from 1. */
  predicate ShelfNumber(i: int, count: int) {
    1 <= i <= count
  }

  /** The machine; its current state object is the `state` field. */
  class VendingMachine {
    const inventory: Inventory
    var state: State
    var balance: real
    var selectedShelf: Option<ShelfId>

    ghost predicate Valid()
      reads inventory.shelves.Values
    {
      inventory.Valid()
    }

    /** The machine as a value. */
    function Model(): Machine
      reads this, inventory.shelves.Values
    {
      Machine(state, balance, selectedShelf, inventory.Stock())
    }

    constructor(shelfCount: int)
      ensures Valid() && fresh(inventory.shelves.Values)
      ensures Model() == Initial(EmptyStock(shelfCount))
    {
      inventory := new Inventory(shelfCount);
      state := Idle;
      balance := 0.0;
      selectedShelf := None;
    }

    method InsertMoney(amount: real) returns (outcome: Outcome)
      modifies this
      ensures Model() == InsertStep(old(Model()), amount).machine
      ensures outcome == InsertStep(old(Model()), amount).outcome
    {
      balance := balance + amount;
      if state == Idle || state == Dispensing {
        state := HasMoney;
      }
      outcome := Inserted(amount, balance);
    }

    /** HasMoneyState.selectItem. */
    method SelectWithMoney(shelfId: ShelfId) returns (outcome: Outcome)
      modifies this
      ensures Model() == HasMoneySelect(old(Model()), shelfId).machine
      ensures outcome == HasMoneySelect(old(Model()), shelfId).outcome
    {
      var available := inventory.IsItemAvailable(shelfId);
      if !available {
        return NotAvailable(shelfId);
      }
      var price := inventory.GetItemPrice(shelfId);
      if balance < price {
        return InsufficientFunds(price - balance);
      }
      selectedShelf := Some(shelfId);
      state := ProductSelected;
      var item := inventory.GetItem(shelfId);
      outcome := Selected(if item.Some? then item.value.name else "");
    }

    method SelectItem(shelfId: ShelfId) returns (outcome: Outcome)
      modifies this
      ensures Model() == SelectStep(old(Model()), shelfId).machine
      ensures outcome == SelectStep(old(Model()), shelfId).outcome
    {
      match state
      case Idle => outcome := InsertMoneyFirst;
      case HasMoney => outcome := SelectWithMoney(shelfId);
      case ProductSelected => outcome := AlreadySelected;
      case Dispensing =>
        state := HasMoney;
        outcome := SelectWithMoney(shelfId);
    }

    /** ProductSelectedState.dispenseItem. */
    method DispenseSelected() returns (outcome: Outcome)
      requires Valid()
      modifies this, inventory.shelves.Values
      ensures Valid()
      ensures Model() == SelectedDispense(old(Model())).machine
      ensures outcome == SelectedDispense(old(Model())).outcome
    {
      var item := None;
      if selectedShelf.Some? {
        item := inventory.GetItem(selectedShelf.value);
      }
      if item.None? {
        state := HasMoney;
        return NoLongerAvailable;
      }
      var price := item.value.price;
      if balance >= price {
        var dispensed := inventory.DispenseItem(selectedShelf.value);
        balance := balance - price;
        state := if balance > 0.0 then Dispensing else Idle;
        outcome := Dispensed(if dispensed.Some? then dispensed.value.name else "", balance);
      } else {
        outcome := InsufficientFunds(price - balance);
      }
    }

    method DispenseItem() returns (outcome: Outcome)
      requires Valid()
      modifies this, inventory.shelves.Values
      ensures Valid()
      ensures Model() == DispenseStep(old(Model())).machine
      ensures outcome == DispenseStep(old(Model())).outcome
    {
      match state
      case Idle => outcome := InsertAndSelectFirst;
      case HasMoney => outcome := SelectFirst;
      case ProductSelected => outcome := DispenseSelected();
      case Dispensing => outcome := AlreadyDispensed;
    }

    method Cancel() returns (outcome: Outcome)
      modifies this
      ensures Model() == CancelStep(old(Model())).machine
      ensures outcome == CancelStep(old(Model())).outcome
    {
      match state
      case Idle =>
        outcome := NoMoneyToReturn;
      case HasMoney =>
        outcome := Returned(balance);
        balance := 0.0;
        state := Idle;
      case ProductSelected =>
        selectedShelf := None;
        state := HasMoney;
        outcome := SelectionCancelled;
      case Dispensing =>
        outcome := Returned(balance);
        balance := 0.0;
        state := Idle;
    }

    /** Restocks a shelf without touching the customer's money, selection or state. */
    method RefillItem(shelfId: ShelfId, item: Item, quantity: nat) returns (ok: bool)
      requires Valid()
      modifies inventory.shelves.Values
      ensures Valid()
      ensures ok <==> shelfId in old(Model()).stock
      ensures ok ==> Model() == old(Model()).(stock := old(Model()).stock[shelfId := ShelfAdd(old(Model()).stock[shelfId], item, quantity)])
      ensures !ok ==> Model() == old(Model())
    {
      ok := inventory.AddItem(shelfId, item, quantity);
    }
  }
}
