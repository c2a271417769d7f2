/** The vending machine of vendingMachine/vendingMachineLLD.js as a transition
    system on values: the machine's state, balance, selected shelf and the
    contents of its shelves, and what each of the four operations does in each
    of the four states. The classes in vending.dfy are proved against these
    functions. Money is an exact real; the returned message strings become
    `Outcome` values. */
module VendingSpec {
  import opened Common

  type ShelfId = int

  datatype Item = Item(name: string, price: real, code: string)

  /** An ItemShelf's contents: the last item stocked (null until the first refill) and how many are left. */
  datatype Shelf = Shelf(item: Option<Item>, quantity: nat)

  /** The four state objects of the machine. */
  datatype State = Idle | HasMoney | ProductSelected | Dispensing

  datatype Machine = Machine(state: State, balance: real, selected: Option<ShelfId>, stock: map<ShelfId, Shelf>)

  /** The message each operation returns, without its wording. */
  datatype Outcome =
    | Inserted(amount: real, total: real)      // "<amount> (more) inserted. Total: <total>"
    | InsertMoneyFirst                         // "Please insert money first"
    | InsertAndSelectFirst                     // "Please insert money and select an item first"
    | NoMoneyToReturn                          // "No money to return"
    | NotAvailable(shelfId: ShelfId)           // "Item at shelf <id> is not available"
    | InsufficientFunds(missing: real)         // "Insufficient funds. Need <missing> more"
    | Selected(name: string)                   // "Item selected: <name>. Press confirm to dispense."
    | SelectFirst                              // "Please select an item first"
    | Returned(refund: real)                   // "Returned <refund>" and "Returned remaining balance: <refund>"
    | AlreadySelected                          // "Item already selected. ..."
    | NoLongerAvailable                        // "Selected item no longer available"
    | Dispensed(name: string, remaining: real) // "Dispensed <name>. Remaining balance: <remaining>"
    | SelectionCancelled                       // "Selection cancelled. ..."
    | AlreadyDispensed                         // "Item already dispensed. ..."

  datatype Step = Step(machine: Machine, outcome: Outcome)

  /** ItemShelf.addItem: the item is replaced and the quantity grows. */
  function ShelfAdd(shelf: Shelf, item: Item, quantity: nat): (r: Shelf)
    ensures r.item == Some(item) && r.quantity == shelf.quantity + quantity
  {
    Shelf(Some(item), shelf.quantity + quantity)
  }

  /** Inventory.isItemAvailable: the shelf exists and is not empty. */
  predicate Available(stock: map<ShelfId, Shelf>, shelfId: ShelfId) {
    shelfId in stock && stock[shelfId].quantity != 0
  }

  /** Inventory.getItem: the shelf's item when it is available, null otherwise. */
  function ItemAt(stock: map<ShelfId, Shelf>, shelfId: ShelfId): Option<Item> {
    if Available(stock, shelfId) then stock[shelfId].item else None
  }

  /** Inventory.getItemPrice: 0 when there is no item to sell. */
  function PriceAt(stock: map<ShelfId, Shelf>, shelfId: ShelfId): real {
    match ItemAt(stock, shelfId)
    case Some(item) => item.price
    case None => 0.0
  }

  /** A shelf that holds a unit also records which item it holds. */
  predicate Stocked(stock: map<ShelfId, Shelf>) {
    forall id | id in stock :: stock[id].quantity > 0 ==> stock[id].item.Some?
  }

  /** Inventory.dispenseItem: one unit fewer on an available shelf. */
  function TakeOne(stock: map<ShelfId, Shelf>, shelfId: ShelfId): (r: map<ShelfId, Shelf>)
    requires Available(stock, shelfId)
    ensures r.Keys == stock.Keys
  {
    stock[shelfId := stock[shelfId].(quantity := stock[shelfId].quantity - 1)]
  }

  /** insertMoney in each state (lines 128-132, 154-157, 196-199, 247-251). */
  function InsertStep(m: Machine, amount: real): Step {
    var total := m.balance + amount;
    var state := if m.state == Idle || m.state == Dispensing then HasMoney else m.state;
    Step(m.(balance := total, state := state), Inserted(amount, total))
  }

  /** HasMoneyState.selectItem. */
  function HasMoneySelect(m: Machine, shelfId: ShelfId): Step {
    if !Available(m.stock, shelfId) then Step(m, NotAvailable(shelfId))
    else if m.balance < PriceAt(m.stock, shelfId) then Step(m, InsufficientFunds(PriceAt(m.stock, shelfId) - m.balance))
    else
      var name := match ItemAt(m.stock, shelfId) case Some(item) => item.name case None => "";
      Step(m.(selected := Some(shelfId), state := ProductSelected), Selected(name))
  }

  /** selectItem in each state; from DISPENSING the machine first moves to
      HAS_MONEY and then selects as that state does (lines 134-136, 159-175, 201-203, 253-256). */
  function SelectStep(m: Machine, shelfId: ShelfId): Step {
    match m.state
    case Idle => Step(m, InsertMoneyFirst)
    case HasMoney => HasMoneySelect(m, shelfId)
    case ProductSelected => Step(m, AlreadySelected)
    case Dispensing => HasMoneySelect(m.(state := HasMoney), shelfId)
  }

  /** ProductSelectedState.dispenseItem. */
  function SelectedDispense(m: Machine): Step {
    var item := if m.selected.Some? then ItemAt(m.stock, m.selected.value) else None;
    if item.None? then Step(m.(state := HasMoney), NoLongerAvailable)
    else if m.balance >= item.value.price then
      var remaining := m.balance - item.value.price;
      Step(Machine(if remaining > 0.0 then Dispensing else Idle, remaining, m.selected, TakeOne(m.stock, m.selected.value)),
           Dispensed(item.value.name, remaining))
    else Step(m, InsufficientFunds(item.value.price - m.balance))
  }

  /** dispenseItem in each state (lines 138-140, 177-179, 205-231, 258-260). */
  function DispenseStep(m: Machine): Step {
    match m.state
    case Idle => Step(m, InsertAndSelectFirst)
    case HasMoney => Step(m, SelectFirst)
    case ProductSelected => SelectedDispense(m)
    case Dispensing => Step(m, AlreadyDispensed)
  }

  /** cancel in each state (lines 142-144, 181-186, 233-237, 262-267). */
  function CancelStep(m: Machine): Step {
    match m.state
    case Idle => Step(m, NoMoneyToReturn)
    case HasMoney => Step(m.(balance := 0.0, state := Idle), Returned(m.balance))
    case ProductSelected => Step(m.(selected := None, state := HasMoney), SelectionCancelled)
    case Dispensing => Step(m.(balance := 0.0, state := Idle), Returned(m.balance))
  }

  /** A customer action on the machine. */
  datatype Action = Insert(amount: real) | Select(shelfId: ShelfId) | Dispense | Cancel

  function Apply(m: Machine, a: Action): Step {
    match a
    case Insert(amount) => InsertStep(m, amount)
    case Select(shelfId) => SelectStep(m, shelfId)
    case Dispense => DispenseStep(m)
    case Cancel => CancelStep(m)
  }

  /** The machine after a sequence of actions, first action first. */
  function Run(m: Machine, actions: seq<Action>): Machine
    decreases |actions|
  {
    if actions == [] then m else Run(Apply(m, actions[0]).machine, actions[1..])
  }

  /** Every amount inserted is non-negative. */
  predicate HonestInsertions(actions: seq<Action>) {
    forall i | 0 <= i < |actions| :: actions[i].Insert? ==> actions[i].amount >= 0.0
  }

  /** What the machine keeps true between actions: the balance is never
      negative, IDLE holds no money, DISPENSING holds some, a selection exists in
      PRODUCT_SELECTED, and stocked shelves know their item. */
  predicate Sound(m: Machine) {
    m.balance >= 0.0 &&
    (m.state == Idle ==> m.balance == 0.0) &&
    (m.state == Dispensing ==> m.balance > 0.0) &&
    (m.state == ProductSelected ==> m.selected.Some?) &&
    Stocked(m.stock)
  }

  /** A fresh machine: IDLE, no money, no selection. */
  function Initial(stock: map<ShelfId, Shelf>): (m: Machine)
    ensures m.state == Idle && m.balance == 0.0 && m.selected.None?
  {
    Machine(Idle, 0.0, None, stock)
  }

  // ---------------------------------------------------------------------
  // What each operation promises

  /** insertMoney adds exactly the amount in every state; IDLE and DISPENSING move to HAS_MONEY, the other states stay. */
  lemma InsertAddsAmount(m: Machine, amount: real)
    ensures InsertStep(m, amount).machine.balance == m.balance + amount
    ensures InsertStep(m, amount).machine.state == (if m.state in {Idle, Dispensing} then HasMoney else m.state)
    ensures InsertStep(m, amount).machine.selected == m.selected && InsertStep(m, amount).machine.stock == m.stock
  {
  }

  /** In IDLE, selecting, dispensing and cancelling change nothing. */
  lemma IdleIgnores(m: Machine, shelfId: ShelfId)
    requires m.state == Idle
    ensures SelectStep(m, shelfId) == Step(m, InsertMoneyFirst)
    ensures DispenseStep(m) == Step(m, InsertAndSelectFirst)
    ensures CancelStep(m) == Step(m, NoMoneyToReturn)
  {
  }

  /** In HAS_MONEY, selection succeeds exactly when the shelf is stocked and the
      balance covers the price; otherwise nothing changes. */
  lemma SelectGuard(m: Machine, shelfId: ShelfId)
    requires m.state == HasMoney
    ensures var s := SelectStep(m, shelfId);
      s.outcome.Selected? <==> Available(m.stock, shelfId) && m.balance >= PriceAt(m.stock, shelfId)
    ensures var s := SelectStep(m, shelfId);
      s.outcome.Selected? ==> s.machine == m.(selected := Some(shelfId), state := ProductSelected)
    ensures var s := SelectStep(m, shelfId);
      !s.outcome.Selected? ==> s.machine == m
  {
  }

  /** In PRODUCT_SELECTED with the selected item still there and paid for, one
      unit leaves the shelf, the price leaves the balance, and the machine goes
      to DISPENSING if money remains and to IDLE otherwise. */
  lemma DispenseSells(m: Machine)
    requires m.state == ProductSelected && m.selected.Some? && Available(m.stock, m.selected.value)
    requires Stocked(m.stock)
    requires m.balance >= PriceAt(m.stock, m.selected.value)
    ensures var s := DispenseStep(m); var id := m.selected.value;
      s.machine.stock == m.stock[id := Shelf(m.stock[id].item, m.stock[id].quantity - 1)] &&
      s.machine.balance == m.balance - PriceAt(m.stock, id) &&
      s.machine.state == (if s.machine.balance > 0.0 then Dispensing else Idle) &&
      s.outcome == Dispensed(m.stock[id].item.value.name, s.machine.balance)
  {
  }

  /** In PRODUCT_SELECTED, an emptied shelf sends the machine back to HAS_MONEY
      with the money untouched, and short funds change nothing. */
  lemma DispenseRefuses(m: Machine)
    requires m.state == ProductSelected && m.selected.Some? && Stocked(m.stock)
    ensures !Available(m.stock, m.selected.value) ==> DispenseStep(m) == Step(m.(state := HasMoney), NoLongerAvailable)
    ensures Available(m.stock, m.selected.value) && m.balance < PriceAt(m.stock, m.selected.value) ==>
      DispenseStep(m).machine == m && DispenseStep(m).outcome.InsufficientFunds?
  {
  }

  /** cancel refunds the whole balance from HAS_MONEY and DISPENSING, and only
      drops the selection from PRODUCT_SELECTED. */
  lemma CancelRefunds(m: Machine)
    ensures m.state in {HasMoney, Dispensing} ==>
      CancelStep(m) == Step(m.(balance := 0.0, state := Idle), Returned(m.balance))
    ensures m.state == ProductSelected ==>
      CancelStep(m).machine == m.(selected := None, state := HasMoney) && CancelStep(m).machine.balance == m.balance
  {
  }

  /** One honest action keeps the machine sound. */
  lemma ApplySound(m: Machine, a: Action)
    requires Sound(m)
    requires a.Insert? ==> a.amount >= 0.0
    ensures Sound(Apply(m, a).machine)
    ensures Apply(m, a).machine.stock.Keys == m.stock.Keys
  {
    if a.Dispense? && m.state == ProductSelected {
      var item := ItemAt(m.stock, m.selected.value);
      if item.Some? && m.balance >= item.value.price {
        var id := m.selected.value;
        var after := TakeOne(m.stock, id);
        forall k | k in after && after[k].quantity > 0 ensures after[k].item.Some? {
          if k == id {
            assert after[k].item == m.stock[id].item;
          }
        }
      }
    }
  }

  /** However the machine is used, as long as no negative amount is inserted its
      balance never goes negative (deductMoney is only reached once the balance
      covers the price) and no shelf is added or removed. */
  lemma {:induction false} BalanceNeverNegative(m: Machine, actions: seq<Action>)
    requires Sound(m) && HonestInsertions(actions)
    ensures Sound(Run(m, actions)) && Run(m, actions).balance >= 0.0
    ensures Run(m, actions).stock.Keys == m.stock.Keys
    decreases |actions|
  {
    if actions != [] {
      ApplySound(m, actions[0]);
      assert HonestInsertions(actions[1..]) by {
        forall i | 0 <= i < |actions[1..]| && actions[1..][i].Insert? ensures actions[1..][i].amount >= 0.0 {
          assert actions[1..][i] == actions[i + 1];
        }
      }
      BalanceNeverNegative(Apply(m, actions[0]).machine, actions[1..]);
    }
  }
}
