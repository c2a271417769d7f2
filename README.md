# Low-level designs of six small systems, modelled and verified in Dafny

This project models the core of a collection of JavaScript low-level designs and proves properties of the models:

- **Expense sharing** (splitwise):
  - users who keep pairwise balances;
  - groups whose balance sheet is rebuilt from their expenses;
  - expenses split equally, exactly, by percentage or by shares;
  - an expense manager that charges expenses and records payments;
  - debt simplification, which sorts the members' nets and sweeps from both ends.
- **Vending machine**:
  - shelves and an inventory, updated in place;
  - a machine whose behaviour depends on its current state object: IDLE, HAS_MONEY, PRODUCT_SELECTED or DISPENSING.
- **Shopping cart**:
  - items with optional per-item discount strategies (percentage, buy X get Y free, category specific);
  - cart-level strategies;
  - discount eligibility conditions;
  - discounts and a checkout.
- **Movie ticket booking**:
  - cinemas and screens;
  - shows with booked seats;
  - bookings with payments;
  - the show, booking, user and cinema services.
- **Online auction**: an auction item, bidders, and the mediator that judges bids.
- **File-system composite**: files, directories and the abstract component's throwing defaults.

Object-oriented parts that the source updates in place are Dafny classes:

- the methods carry `modifies` clauses;
- each method is proved against a pure specification function of the old state;
- the properties of that function are proved as lemmas.

Pure parts are datatypes, functions and lemmas. Money is an exact `real`, so floating-point rounding is not modelled. Console output becomes outcome values.

| file | module | models |
|---|---|---|
| common.dfy | Common | Option/Result, sums over maps, small arithmetic facts |
| splitwise_split.dfy | Splits | how an expense is split (pure) |
| splitwise_ledger.dfy | Ledger | pairwise balances, pair updates, expenses and payments on a ledger |
| settlement.dfy | Settlement | debt simplification: sort and sweep |
| splitwise.dfy | Splitwise | User, Expense, Group classes |
| splitwise_manager.dfy | Manager | ExpenseManager |
| vending_spec.dfy | VendingSpec | the machine as a state-transition function |
| vending.dfy | Vending | ItemShelf, Inventory, VendingMachine classes |
| cart.dfy | Cart | products, strategies, cart items, ShoppingCart |
| checkout.dfy | Discounts | eligibility, Discount.apply, Checkout |
| tickets.dfy | Tickets | cinemas, shows, bookings, services |
| auction.dfy | Auction | auction item, bidders, mediator |
| composite.dfy | FileSystem | file-system components |

## Model

| member | source | states |
|---|---|---|
| Splits.EqualShares | splitwise/splitwiseLLD.js:199-204 | every participant, and only they, get an equal share; share times count is the amount |
| Splits.Assign | splitwise/splitwiseLLD.js:219-242 | participant i gets value i unless a later position repeats that participant (the last write wins); the keys are exactly the participants |
| Splits.Scaled | splitwise/splitwiseLLD.js:219-242 | entry k is weight k multiplied by the factor, length kept |
| Splits.FiniteCount | splitwise/splitwiseLLD.js:219-242 | every participant gets a finite share exactly when there is a weight for each and the denominator is non-zero (or nobody takes part) |
| Splits.EqualSharesSum | splitwise/splitwiseLLD.js:199-204 | an equal split among distinct participants adds up to the amount |
| Splits.AssignSum | splitwise/splitwiseLLD.js:219-242 | distinct participants' assigned values add up to the sum of the values used |
| Splits.ScaledSum | splitwise/splitwiseLLD.js:234-242 | scaled weights add up to the scaled sum of the weights |
| Splits.ScaledAssignSum | splitwise/splitwiseLLD.js:219-242 | scaled values assigned to distinct participants add up to the scaled sum |
| Splits.SmallFactor | splitwise/splitwiseLLD.js:228-231 | a factor within the 0.01 tolerance of zero scales an amount by at most the tolerance |
| Splits.PercentError | splitwise/splitwiseLLD.js:228-231 | percentages within the tolerance of 100 scale an amount to within amount×0.01/100 of it |
| Splits.PercentageSplitClose | splitwise/splitwiseLLD.js:219-232 | an accepted percentage split adds up to the amount within amount×0.01/100 |
| Splits.SharesSplitExact | splitwise/splitwiseLLD.js:234-242 | a split by shares adds up to exactly the amount |
| Splits.SplitsAddUp | splitwise/splitwiseLLD.js:180-242 | whenever distribute neither throws nor meets a non-finite share, the split of each type with at least one participant adds up to the amount (exactly, or within tolerance) |
| Ledger.Bump | splitwise/splitwiseLLD.js:49-52 | updateBalanceWith adds to one entry, a missing entry counting as 0, and leaves the others |
| Ledger.SumBump | splitwise/splitwiseLLD.js:40-52 | the user's total balance grows by the amount added |
| Ledger.PairInSteps | splitwise/splitwiseLLD.js:344-348 | the two updateBalanceWith calls of an expense share are one pair update |
| Ledger.PairConserves | splitwise/splitwiseLLD.js:344-348 | a pair update keeps the sum of all total balances |
| Ledger.PairKeepsShape | splitwise/splitwiseLLD.js:344-348 | a pair update keeps the ledger closed and antisymmetric |
| Ledger.AddAll | splitwise/splitwiseLLD.js:103-111 | the payer's row gains every participant's share |
| Ledger.ChargeEffect | splitwise/splitwiseLLD.js:343-353 | one expense moves exactly the non-payer shares between payer and participant, nothing else |
| Ledger.ChargeNothing | splitwise/splitwiseLLD.js:343-353 | an expense without splits leaves the ledger unchanged |
| Ledger.ChargeStep | splitwise/splitwiseLLD.js:343-353 | one more split entry is one more pair update |
| Ledger.ChargeOwnShare | splitwise/splitwiseLLD.js:343-349 | the payer's own share changes nothing |
| Ledger.ChargeVisit | splitwise/splitwiseLLD.js:343-353 | the splits may be charged in any order |
| Ledger.ChargeKeepsInvariants | splitwise/splitwiseLLD.js:343-353 | an expense keeps the ledger closed and antisymmetric, with the total unchanged |
| Ledger.PairSums | splitwise/splitwiseLLD.js:344-348 | a pair update raises a's total by x and lowers b's by x |
| Ledger.ChargeSums | splitwise/splitwiseLLD.js:343-353 | the payer's total grows by the others' shares; each participant's total falls by their share |
| Ledger.PayAsWrittenGrowsDebt | splitwise/splitwiseLLD.js:359-376 | with the source's signs, what the payer owes the payee grows by the amount paid |
| Ledger.PayAsWrittenExample | splitwise/splitwiseLLD.js:359-376 | Bob owes Alice 30 and pays 50; as written, Alice is then owed 80 |
| Ledger.PaySettlesDebt | splitwise/splitwiseLLD.js:359-376 | the corrected payment lowers the debt by the amount, moves the totals, and keeps the ledger invariants |
| Settlement.FlowAppend | splitwise/splitwiseLLD.js:138-159 | a user's flow over two lists of transfers is the sum of the flows |
| Settlement.WindowEnds | splitwise/splitwiseLLD.js:138-142 | inside the sweep the left end owes and the right end is owed |
| Settlement.Settle | splitwise/splitwiseLLD.js:153-154 | an iteration moves the amount from debtor to creditor and keeps the length |
| Settlement.StepKeepsWindow | splitwise/splitwiseLLD.js:138-159 | each iteration keeps the loop invariant and narrows the window |
| Settlement.PlanLength | splitwise/splitwiseLLD.js:138-159 | the loop runs at most n-1 times and emits at most one transfer per run |
| Settlement.EmittedDirection | splitwise/splitwiseLLD.js:142-150 | an emitted transfer goes from a debtor to a creditor |
| Settlement.SettleShrinks | splitwise/splitwiseLLD.js:153-154 | an iteration makes no new debtor or creditor |
| Settlement.PlanDirections | splitwise/splitwiseLLD.js:138-159 | every transfer moves a positive amount from someone who owes to someone who is owed |
| Settlement.StepFlow | splitwise/splitwiseLLD.js:142-154 | an iteration changes each net by that user's flow in the emitted transfer |
| Settlement.PlanSettles | splitwise/splitwiseLLD.js:138-159 | applying all emitted transfers brings every net exactly to zero |
| Settlement.SortedIsWindow | splitwise/splitwiseLLD.js:132-135 | sorted nets that add up to zero satisfy the loop invariant initially |
| Settlement.Insert | splitwise/splitwiseLLD.js:132 | one insertion pass keeps the positions (permutation) and sorts a longer prefix |
| Settlement.SortByNet | splitwise/splitwiseLLD.js:132 | the nets sorted ascending, as a rearrangement of the input |
| Settlement.Sweep | splitwise/splitwiseLLD.js:134-159 | the while loop emits exactly the plan |
| Settlement.PayAllSums | splitwise/splitwiseLLD.js:359-376 | recording the transfers as payments changes each total balance by the user's flow |
| Settlement.ThreeWayExample | splitwise/splitwiseLLD.js:117-161 | A owed 40, B owed 10, C owes 50: C pays A 40, then B 10 |
| Splitwise.User.constructor | splitwise/splitwiseLLD.js:17-26 | a new user has no balances and no expenses |
| Splitwise.User.AddExpense | splitwise/splitwiseLLD.js:36-38 | records the expense id and leaves the balances |
| Splitwise.User.GetTotalBalance | splitwise/splitwiseLLD.js:40-46 | the sum of all balances |
| Splitwise.User.UpdateBalanceWith | splitwise/splitwiseLLD.js:49-52 | the balances become Bump of the old ones |
| Splitwise.Expense.constructor | splitwise/splitwiseLLD.js:166-178 | fields as given, no splits yet |
| Splitwise.Expense.Distribute | splitwise/splitwiseLLD.js:180-197 | writes the type's entries into the splits, even when it then throws; returns the error the source throws, or NonFiniteSplit where the source would write a NaN or infinite share |
| Splitwise.Expense.DistributeEqually | splitwise/splitwiseLLD.js:199-204 | splits gain the equal shares |
| Splitwise.Expense.DistributeExactly | splitwise/splitwiseLLD.js:206-217 | splits gain the exact amounts; an error exactly when their sum misses the amount by more than 0.01 |
| Splitwise.Expense.DistributeByPercentage | splitwise/splitwiseLLD.js:219-232 | splits gain amount×percentage/100 each, up to the first participant without a percentage, where NonFiniteSplit is reported; with a percentage for everyone, an error exactly when they miss 100 by more than 0.01 |
| Splitwise.Expense.DistributeByShares | splitwise/splitwiseLLD.js:234-242 | splits gain amount×share/total shares each, up to the first share that is missing or divides by a zero total; NonFiniteSplit exactly when some participant meets such a share |
| Splitwise.ProportionalStep | splitwise/splitwiseLLD.js:219-242 | the loop's next participant gets amount×weight/denominator |
| Splitwise.ShareIsScaled | splitwise/splitwiseLLD.js:224-238 | amount×weight/denominator equals weight times amount/denominator |
| Splitwise.EntriesOf | splitwise/splitwiseLLD.js:99-112 | the (payer, splits) pair of each expense, in order |
| Splitwise.ZeroSheet | splitwise/splitwiseLLD.js:85-96 | one row per member |
| Splitwise.Replay | splitwise/splitwiseLLD.js:99-112 | replaying expenses keeps the members' rows |
| Splitwise.ZeroSheetShape | splitwise/splitwiseLLD.js:85-96 | the initial sheet is closed, antisymmetric, with total 0 |
| Splitwise.SheetShape | splitwise/splitwiseLLD.js:85-115 | the balance sheet is closed and antisymmetric, and the members' totals add up to zero |
| Splitwise.CopyEntries | splitwise/splitwiseLLD.js:206-211 | the forEach of distributeExactly writes every entry and sums the amounts |
| Splitwise.WritePair | splitwise/splitwiseLLD.js:104-110 | the inner loop body is one pair update |
| Splitwise.ChargeSheet | splitwise/splitwiseLLD.js:103-111 | the inner loop charges one expense's splits |
| Splitwise.IndexOf | splitwise/splitwiseLLD.js:81-83 | the position of the expense with an id, or -1 when there is none |
| Splitwise.Added | splitwise/splitwiseLLD.js:81-83 | Map.set by id: the expense is present, other ids are kept, nothing else is added, ids stay unique |
| Splitwise.ReplaceKeeps | splitwise/splitwiseLLD.js:81-83 | replacing the expense of the same id keeps every other expense |
| Splitwise.Group.constructor | splitwise/splitwiseLLD.js:56-64 | a new group has its members and no expenses |
| Splitwise.Group.AddExpense | splitwise/splitwiseLLD.js:81-83 | the expenses become Added(old, expense) |
| Splitwise.Group.GetBalanceSheet | splitwise/splitwiseLLD.js:85-115 | the sheet rebuilt from the zero sheet and the expenses, in order |
| Splitwise.Group.SimplifyDebts | splitwise/splitwiseLLD.js:117-161 | the transfers settle every member's net exactly and each goes from a debtor to a creditor |
| Splitwise.ZeroRow | splitwise/splitwiseLLD.js:91-95 | a 0 entry for every other member |
| Splitwise.InitSheet | splitwise/splitwiseLLD.js:88-96 | the first loop builds the zero sheet |
| Splitwise.ReplayEntries | splitwise/splitwiseLLD.js:99-112 | the second loop replays every expense |
| Splitwise.Simplify | splitwise/splitwiseLLD.js:118-161 | nets, sort and sweep give transfers that settle the sheet |
| Splitwise.NetsOfSheet | splitwise/splitwiseLLD.js:122-129 | the members' nets add up to the sheet's total, one per distinct member |
| Splitwise.PlanSettlesSheet | splitwise/splitwiseLLD.js:117-161 | the plan from the sorted nets settles the sheet |
| Manager.WithExpenseEffect | splitwise/splitwiseLLD.js:351-352 | the expense id is added exactly to the participants' sets |
| Manager.UpdateBalance | splitwise/splitwiseLLD.js:49-52 | one updateBalanceWith changes exactly that user's row |
| Manager.RecordExpense | splitwise/splitwiseLLD.js:351-352 | user.addExpense changes exactly that user's expense set |
| Manager.ChargeOne | splitwise/splitwiseLLD.js:344-352 | the loop body: a pair update for a non-payer, nothing for the payer, and the id recorded |
| Manager.PayBetween | splitwise/splitwiseLLD.js:372-373 | the two balance calls of a payment, with the corrected signs |
| Manager.SettlePayment | splitwise/splitwiseLLD.js:372-373 | a payment keeps the users' balances consistent |
| Manager.ChargeNext | splitwise/splitwiseLLD.js:343-353 | one more visited participant is charged and recorded |
| Manager.ChargeSplits | splitwise/splitwiseLLD.js:343-353 | the loop charges the whole expense and records its id for every participant |
| Manager.ExpenseManager.constructor | splitwise/splitwiseLLD.js:270-281 | no expenses or payments; the id counters start at 1 |
| Manager.ExpenseManager.CreateExpense | splitwise/splitwiseLLD.js:319-324 | a fresh expense under the next id, with nothing else changed |
| Manager.ExpenseManager.AddExpenseToGroup | splitwise/splitwiseLLD.js:326-356 | error when the expense or the group is missing; otherwise distributes, adds to the group, charges balances, and keeps the ledger consistent |
| Manager.ExpenseManager.CreatePayment | splitwise/splitwiseLLD.js:359-376 | records a pending payment under the next id; between registered users it moves the balances by the corrected Pay, not by the source's signs (see Findings) |
| Manager.ExpenseManager.RecordPayment | splitwise/splitwiseLLD.js:360-362 | stores the payment under the next id |
| Manager.ExpenseManager.GetUserBalances | splitwise/splitwiseLLD.js:378-388 | the total and balances of a user; UserNotFound otherwise |
| Manager.ExpenseManager.GetGroupBalanceSheet | splitwise/splitwiseLLD.js:390-397 | the group's rebuilt sheet; GroupNotFound otherwise |
| Manager.ExpenseManager.GetSimplifiedDebts | splitwise/splitwiseLLD.js:399-406 | transfers that settle the group's sheet; GroupNotFound otherwise |
| Manager.AddExpense | splitwise/splitwiseLLD.js:333-355 | the found expense is distributed, added to the group and charged |
| Manager.ChargeConsistent | splitwise/splitwiseLLD.js:343-353 | charging an expense among users keeps the ledger consistent |
| VendingSpec.ShelfAdd | vendingMachine/vendingMachineLLD.js:18-21 | the item is replaced and the quantities add up |
| VendingSpec.TakeOne | vendingMachine/vendingMachineLLD.js:70-75 | one unit fewer on the shelf, the shelves kept |
| VendingSpec.Initial | vendingMachine/vendingMachineLLD.js:272-285 | a new machine is IDLE with no money and no selection |
| VendingSpec.InsertAddsAmount | vendingMachine/vendingMachineLLD.js:128-132 | insertMoney adds exactly the amount in every state; IDLE and DISPENSING move to HAS_MONEY |
| VendingSpec.IdleIgnores | vendingMachine/vendingMachineLLD.js:122-145 | in IDLE, select, dispense and cancel change nothing |
| VendingSpec.SelectGuard | vendingMachine/vendingMachineLLD.js:159-175 | selection succeeds exactly when the shelf is stocked and the balance covers the price |
| VendingSpec.DispenseSells | vendingMachine/vendingMachineLLD.js:205-231 | a paid, available selection hands out one unit and deducts its price |
| VendingSpec.DispenseRefuses | vendingMachine/vendingMachineLLD.js:205-231 | an emptied shelf returns to HAS_MONEY; too little money changes nothing |
| VendingSpec.CancelRefunds | vendingMachine/vendingMachineLLD.js:181-186 | cancel refunds the whole balance from HAS_MONEY and DISPENSING, and only drops the selection from PRODUCT_SELECTED |
| VendingSpec.ApplySound | vendingMachine/vendingMachineLLD.js:104-268 | one action with a non-negative insertion keeps the machine sound |
| VendingSpec.BalanceNeverNegative | vendingMachine/vendingMachineLLD.js:104-268 | over any sequence of honest actions the balance stays non-negative and the shelves stay the same |
| Vending.ItemShelf.constructor | vendingMachine/vendingMachineLLD.js:12-16 | an empty shelf with no item |
| Vending.ItemShelf.AddItem | vendingMachine/vendingMachineLLD.js:18-21 | contents become ShelfAdd of the old contents |
| Vending.ItemShelf.DispenseItem | vendingMachine/vendingMachineLLD.js:23-29 | one unit and its item when any are left; nothing otherwise |
| Vending.Inventory.constructor | vendingMachine/vendingMachineLLD.js:46-53 | shelves 1 to shelfCount, all empty |
| Vending.Inventory.AddItem | vendingMachine/vendingMachineLLD.js:55-61 | an existing shelf is restocked and only it; false and no change otherwise |
| Vending.Inventory.GetItem | vendingMachine/vendingMachineLLD.js:63-68 | the item of a shelf with units left, nothing otherwise |
| Vending.Inventory.DispenseItem | vendingMachine/vendingMachineLLD.js:70-75 | takes one unit from an available shelf; no change otherwise |
| Vending.Inventory.IsItemAvailable | vendingMachine/vendingMachineLLD.js:77-79 | the shelf exists and is not empty |
| Vending.Inventory.GetItemPrice | vendingMachine/vendingMachineLLD.js:81-84 | the sellable item's price, 0 otherwise |
| Vending.EmptyStock | vendingMachine/vendingMachineLLD.js:46-53 | shelves exactly 1..count, all empty |
| Vending.VendingMachine.constructor | vendingMachine/vendingMachineLLD.js:272-285 | the initial machine over an empty stock |
| Vending.VendingMachine.InsertMoney | vendingMachine/vendingMachineLLD.js:310-312 | the machine and outcome of InsertStep |
| Vending.VendingMachine.SelectWithMoney | vendingMachine/vendingMachineLLD.js:159-175 | the machine and outcome of HasMoneySelect |
| Vending.VendingMachine.SelectItem | vendingMachine/vendingMachineLLD.js:314-316 | the machine and outcome of SelectStep |
| Vending.VendingMachine.DispenseSelected | vendingMachine/vendingMachineLLD.js:205-231 | the machine and outcome of SelectedDispense |
| Vending.VendingMachine.DispenseItem | vendingMachine/vendingMachineLLD.js:318-320 | the machine and outcome of DispenseStep |
| Vending.VendingMachine.Cancel | vendingMachine/vendingMachineLLD.js:322-324 | the machine and outcome of CancelStep |
| Vending.VendingMachine.RefillItem | vendingMachine/vendingMachineLLD.js:364-366 | restocks an existing shelf; money, selection and state untouched |
| Cart.IndexOf | shoppingCart/shoppingCartLLD.js:237-239 | the first item for a product, or none exactly when there is no such item |
| Cart.ShoppingCart.constructor | shoppingCart/shoppingCartLLD.js:229-233 | an empty cart with no discounts |
| Cart.ShoppingCart.AddItem | shoppingCart/shoppingCartLLD.js:235-248 | merges into the product's item or appends a new one; the item count grows by the quantity |
| Cart.ShoppingCart.RemoveItem | shoppingCart/shoppingCartLLD.js:250-253 | the items become Without(old, id) |
| Cart.ShoppingCart.UpdateQuantity | shoppingCart/shoppingCartLLD.js:255-261 | only the product's item gets the new quantity; no change when it is absent |
| Cart.ShoppingCart.ApplyCartLevelDiscount | shoppingCart/shoppingCartLLD.js:267-270 | appends the strategy |
| Cart.ShoppingCart.ClearCart | shoppingCart/shoppingCartLLD.js:285-289 | no items, no discounts |
| Cart.ShoppingCart.CalculateTotal | shoppingCart/shoppingCartLLD.js:272-283 | the loops compute CartTotal |
| Cart.CountUpdate | shoppingCart/shoppingCartLLD.js:255-261 | changing one quantity changes the item count by the difference |
| Cart.WithoutConcat | shoppingCart/shoppingCartLLD.js:250-253 | the filter distributes over concatenation, so order is kept |
| Cart.WithoutMembers | shoppingCart/shoppingCartLLD.js:250-253 | the filter keeps exactly the items for other products |
| Cart.WithoutKeeps | shoppingCart/shoppingCartLLD.js:250-253 | removal keeps the cart's invariant and leaves no item for the product |
| Cart.WithoutAbsent | shoppingCart/shoppingCartLLD.js:250-253 | removing an absent product changes nothing |
| Cart.PaidAtMostQuantity | shoppingCart/shoppingCartLLD.js:183-197 | buy X get Y never charges for more units than were bought |
| Cart.PaidPerSet | shoppingCart/shoppingCartLLD.js:183-197 | each extra full set of X+Y costs exactly X units |
| Cart.BuyTwoGetOneExample | shoppingCart/shoppingCartLLD.js:183-197 | buy 2 get 1: 3 items pay for 2, 7 items for 5 |
| Cart.CategoryPricing | shoppingCart/shoppingCartLLD.js:199-212 | a matching category is a percentage discount; any other is full price |
| Cart.ApplyWithinFullPrice | shoppingCart/shoppingCartLLD.js:172-212 | a bounded strategy charges between 0 and the full price |
| Cart.SavingsNonNegative | shoppingCart/shoppingCartLLD.js:272-283 | a bounded cart-level strategy never adds to the total |
| Cart.TotalAtMostSubtotal | shoppingCart/shoppingCartLLD.js:272-283 | the total is at most the subtotal, and equal to it without cart-level strategies |
| Cart.DemoCart | shoppingCart/shoppingCartLLD.js:312-363 | the demonstration cart: 6 units, subtotal 1640, total 1415 |
| Discounts.CheckEligibility | shoppingCart/shoppingCartLLD.js:404-431 | eligible exactly when every condition holds; no conditions is eligible; an unknown condition is not |
| Discounts.Checkout.constructor | shoppingCart/shoppingCartLLD.js:514-519 | no registered or applied discounts |
| Discounts.Checkout.RegisterDiscount | shoppingCart/shoppingCartLLD.js:521-524 | appends the discount |
| Discounts.Checkout.CalculateTotal | shoppingCart/shoppingCartLLD.js:526-546 | the applied discounts are the eligible ones; an error exactly when applying them throws; otherwise the subtotal, the discount and the difference |
| Discounts.EligibleExactly | shoppingCart/shoppingCartLLD.js:530-532 | the applied discounts are exactly the eligible registered ones, and a subsequence of the registered list, so in registration order |
| Discounts.ApplyDiscountCases | shoppingCart/shoppingCartLLD.js:454-476 | ineligible gives 0; fixed amount capped by the subtotal; an error exactly for an eligible bundle; unknown types give 0 |
| Discounts.ApplyDiscountBounded | shoppingCart/shoppingCartLLD.js:454-476 | a percentage up to 100 or a non-negative fixed amount lies between 0 and the subtotal |
| Discounts.TotalWithoutBundles | shoppingCart/shoppingCartLLD.js:535-538 | without bundle discounts the total never throws |
| Discounts.DemoSubtotal | shoppingCart/shoppingCartLLD.js:559-634 | the second demonstration's subtotal is 1750 |
| Discounts.DemoAmounts | shoppingCart/shoppingCartLLD.js:559-634 | all three demo discounts are eligible; the first two are worth 262.5 and 100 |
| Discounts.DemoCheckout | shoppingCart/shoppingCartLLD.js:559-634 | the demonstration keeps all three; without the bundle they take off 362.5; with it, checkout throws |
| Tickets.ProcessPayment | bookMyShow.js:152-155 | the payment completes with the transaction id; nothing else changes |
| Tickets.FirstTaken | bookMyShow.js:325-329 | the first requested seat that is taken, none exactly when all are free |
| Tickets.Release | bookMyShow.js:380-383 | the corrected release only removes entries and keeps the others' holders |
| Tickets.CancelOutcome | bookMyShow.js:131-138 | cancelled exactly when not confirmed; a confirmed booking keeps its status |
| Tickets.User.constructor | bookMyShow.js:4-10 | an empty booking history |
| Tickets.User.AddBooking | bookMyShow.js:12-14 | appends to the history |
| Tickets.Cinema.constructor | bookMyShow.js:35-41 | no screens |
| Tickets.Cinema.AddScreen | bookMyShow.js:43-49 | appends while fewer than totalScreens; never exceeds it |
| Tickets.Show.constructor | bookMyShow.js:82-90 | no booked seats |
| Tickets.Show.BookSeat | bookMyShow.js:103-109 | books exactly a free seat; a taken seat keeps its holder |
| Tickets.Booking.constructor | bookMyShow.js:113-122 | fields as given, no payment |
| Tickets.Booking.AddPayment | bookMyShow.js:124-129 | records the payment; confirms exactly on a completed payment |
| Tickets.Booking.CancelBooking | bookMyShow.js:131-138 | status and result as CancelOutcome |
| Tickets.FindShow | bookMyShow.js:317-318 | the show with the id, none exactly when there is none |
| Tickets.UserService.constructor | bookMyShow.js:161-163 | the registered users |
| Tickets.CinemaService.constructor | bookMyShow.js:214-216 | the registered cinemas |
| Tickets.ShowService.constructor | bookMyShow.js:245-249 | the registered shows |
| Tickets.ShowService.GetShowsForMovie | bookMyShow.js:279-287 | the movie's shows on the date, in order |
| Tickets.ShowService.GetShowsForCinema | bookMyShow.js:289-302 | the shows on the cinema's screens on the date; empty for an unknown cinema |
| Tickets.BookingService.constructor | bookMyShow.js:310-314 | no bookings |
| Tickets.BookingService.CreateBooking | bookMyShow.js:316-349 | error without user or show; error naming the first taken seat; otherwise a pending booking that holds all seats, added to the user |
| Tickets.BookingService.ConfirmBooking | bookMyShow.js:355-369 | error for an unknown booking; otherwise a completed payment of the total that confirms it |
| Tickets.BookingService.CancelBooking | bookMyShow.js:371-387 | error for an unknown booking; a confirmed one stays; otherwise cancelled, and only the seats it still holds are freed (the corrected release); a missing show is an error only for a booking with seats |
| Tickets.CheckSeats | bookMyShow.js:325-329 | the first requested seat already booked |
| Tickets.MarkSeats | bookMyShow.js:341-343 | the seats offered to the booking in turn |
| Tickets.FreeSeats | bookMyShow.js:380-383 | the corrected release loop |
| Tickets.FirstTakenAt | bookMyShow.js:325-329 | the first taken seat is the one at the first taken position |
| Tickets.ReserveFree | bookMyShow.js:341-343 | all requested seats free: each is then held by the booking, the rest unchanged |
| Tickets.ReserveTaken | bookMyShow.js:341-343 | booking seats that are all taken changes nothing |
| Tickets.ReleaseExactly | bookMyShow.js:380-383 | the corrected release frees exactly the requested seats held by this booking |
| Tickets.ReleaseAsWrittenFreesOthersSeats | bookMyShow.js:371-387 | b1 books and cancels A1, b2 books it, re-cancelling b1 as written frees b2's seat |
| Tickets.ShowsOfMovieExactly | bookMyShow.js:279-287 | the movie listing holds exactly the movie's shows on the date |
| Tickets.ShowsOnScreenExactly | bookMyShow.js:293-299 | the screen listing holds exactly that screen's shows on the date |
| Tickets.ShowsOnScreensExactly | bookMyShow.js:289-302 | the cinema listing holds exactly the shows on its screens on the date |
| Auction.EndStatus | onlineAuction/onlineAuctionMediatorDP.js:154-159 | completed exactly when the reserve is reached, cancelled otherwise |
| Auction.AuctionItem.constructor | onlineAuction/onlineAuctionMediatorDP.js:139-147 | pending at the starting price, no bidder |
| Auction.AuctionItem.StartAuction | onlineAuction/onlineAuctionMediatorDP.js:149-152 | active; bid and bidder kept |
| Auction.AuctionItem.EndAuction | onlineAuction/onlineAuctionMediatorDP.js:154-159 | the status is EndStatus; bid and bidder kept |
| Auction.Bidder.constructor | onlineAuction/onlineAuctionMediatorDP.js:26-31 | no limit, no bid, no history |
| Auction.Bidder.SetMaxBidLimit | onlineAuction/onlineAuctionMediatorDP.js:41-44 | sets the limit only |
| Auction.Bidder.PlaceBid | onlineAuction/onlineAuctionMediatorDP.js:108-120 | accepted exactly when judged so; the bid and history record only accepted bids |
| Auction.Mediator.constructor | onlineAuction/onlineAuctionMediatorDP.js:49-53 | no bidders |
| Auction.Mediator.RegisterBidder | onlineAuction/onlineAuctionMediatorDP.js:55-61 | registers exactly a name not yet taken |
| Auction.Mediator.PlaceBid | onlineAuction/onlineAuctionMediatorDP.js:63-90 | accepted exactly when active, higher, and within a positive limit; an accepted bid becomes the highest |
| Auction.AcceptedRaises | onlineAuction/onlineAuctionMediatorDP.js:63-90 | an accepted bid strictly raises the highest bid; a refused one changes nothing |
| Auction.BidsNeverLower | onlineAuction/onlineAuctionMediatorDP.js:63-90 | over any bids the highest bid never falls and the status never changes |
| Auction.DemoAuction | onlineAuction/onlineAuctionMediatorDP.js:163-200 | the demonstration closes sold to Alice at 1600 |
| FileSystem.Add | 5compositeDP.js:17-19 | succeeds exactly on a directory, keeping its name |
| FileSystem.Remove | 5compositeDP.js:21-23 | succeeds exactly on a directory, keeping its name |
| FileSystem.GetChildren | 5compositeDP.js:25-27 | children exactly of a directory; NotADirectory otherwise |
| FileSystem.FindByName | 5compositeDP.js:83-85 | the first direct child with the name; none exactly when no child has it |
| FileSystem.SizeIsFileTotal | 5compositeDP.js:12-14 | getSize throws exactly when a bare component is in the tree; otherwise it is the total of the files' sizes |
| FileSystem.ChildrenSizeIsFileTotal | 5compositeDP.js:70-72 | a directory's reduce is the total of its files' sizes |
| FileSystem.EmptyDirectorySize | 5compositeDP.js:70-72 | an empty directory has size 0 |
| FileSystem.ChildrenSizeAppend | 5compositeDP.js:56-59 | an appended child adds its size to the reduce |
| FileSystem.AddAppends | 5compositeDP.js:56-59 | add appends the child last and adds its size |
| FileSystem.WithoutSize | 5compositeDP.js:61-72 | after the filter the children's sizes add up to the old sum less the component's size once per occurrence |
| FileSystem.RemoveSize | 5compositeDP.js:61-72 | remove takes the component's size off the directory's once per occurrence, and the size stays defined |
| FileSystem.WithoutExactly | 5compositeDP.js:61-64 | removal drops every occurrence and keeps every other child |
| FileSystem.RemoveDrops | 5compositeDP.js:61-64 | remove leaves no occurrence, keeps the others, and changes nothing when absent |
| FileSystem.ExampleSize | 5compositeDP.js:89-117 | the example tree is 3922 bytes; Pictures is a direct child of root, Vacation is not |

## Left out

- **Console output, messages and notifications.** Messages become outcome values. Notifications are printing only (auction notifyBidders, the bookMyShow notification service).
- **Timestamps, `Date.now()`, `new Date()` and random or counter-generated ids.**
  - The SEASONAL condition takes the current time as a parameter `now`.
  - Ids come in as parameters: booking ids, payment ids, transaction ids.
  - The expense manager's counters are modelled as fields.
- **Floating-point arithmetic.** Money is an exact `real`.
  - The 0.01 tolerances of the splits are kept as a constant.
  - Auto-bidding's ×1.1 raise is not modelled.
- **Integer widths.** Quantities are `nat`, seat prices `int` and file sizes `int`.
- **Registration plumbing**:
  - createUser, createGroup, addUserToGroup, createShow, addCinema and their getters;
  - Group.addMember and removeMember;
  - User.addGroup and removeGroup.

  The services are built from given maps or sequences.
- **Searches and displays**: displayItems, getCurrentState, Inventory display, searchMovies, searchCinemasByLocation, isShowAvailable, the composite's print, and the case-insensitive searches.
- **The commented-out older cart code and the pattern demonstration files.**
- **Shared object references in the composite.**
  - Components are values, so add and remove return the new directory rather than updating one in place.
  - FileSystem.Remove drops every child equal to the component, whereas the source drops only the same object.
- **Show objects.** Shows are compared by reference (`Show` is a class), but end times are not kept.
- **Payments.** Payment is a value. markAsCompleted and cancel of the splitwise Payment are not modelled.
- **Splitwise.Group.SimplifyDebts.** The sweep advances an index when a net reaches exactly 0, not when it is within 0.01 of 0. With exact arithmetic this differs from the source only for residuals below a cent.
- **Cart.ShoppingCart.CalculateTotal.** Buy X get Y with X+Y = 0 divides by zero (NaN) in the source. The model requires X+Y > 0 of every strategy (WellFormed).
- **Discounts.ApplyDiscount (BUY_X_GET_Y).** The source filters the cart by a category the Discount constructor never stored. It finds no item, so the discount is 0, and the model gives 0.
- **Discounts.ApplyDiscount (BUNDLE).** The source reads a product list the constructor never stored, so it always throws. The model returns an error.
- Splitwise.Expense.Distribute: where the source writes a NaN or infinite share and carries on, the model keeps the finite shares written before it, writes no NaN entry and reports NonFiniteSplit. This happens for a percentage list shorter than the participants or given as a Map, a share list shorter than the participants, and shares adding up to 0. Exact reals have no NaN or infinity.
- Splitwise.Expense.DistributeByPercentage: stops at the first participant without a percentage and reports NonFiniteSplit. The source writes NaN shares, and its NaN total slips past the 100% check.
- Splitwise.Expense.DistributeByShares: stops at the first missing share, and writes nothing when the shares add up to 0, reporting NonFiniteSplit. The source writes NaN or infinite shares there.
- Manager.AddExpense: on NonFiniteSplit the model does not add the expense to the group and charges nothing. The source goes on and charges the NaN or infinite shares to the balances.
- Manager.ExpenseManager.AddExpenseToGroup: as Manager.AddExpense, it stops with SplitFailed(NonFiniteSplit) where the source charges non-finite shares.
- Splits.Failure: an array given to an EXACT expense is reported as MissingDistribution. The source writes its entries keyed by array index, which are not user ids.
- Manager.ExpenseManager.CreatePayment: applies the corrected signs of Ledger.Pay (first Findings row), not the source's. Ledger.PayAsWritten models the source's signs.
- Manager.PayBetween: uses the corrected signs, as Manager.ExpenseManager.CreatePayment does.
- Tickets.BookingService.CancelBooking: frees only the seats the booking still holds (Tickets.Release, second Findings row). The source deletes every seat of the booking, as Tickets.ReleaseAsWritten models.
- Tickets.FreeSeats: computes the corrected Tickets.Release, not the source's unconditional delete.
- **Tickets.BookingService.ConfirmBooking.** Confirming a cancelled booking confirms it, as the source does. Its seats may meanwhile belong to others.
- **Vending.VendingMachine.RefillItem.** Negative refill quantities are excluded by the `nat` type.
- **The state objects of the vending machine** are the `state` field of an enum type, not objects.

## Findings

| source | as written | input that shows it | evidently intended | confidence | as-written member | corrected member |
|---|---|---|---|---|---|---|
| splitwise/splitwiseLLD.js:371-373 | createPayment adds -amount to the payer's entry for the payee and +amount to the payee's entry for the payer | Bob owes Alice 30 (Alice's entry for Bob is 30) and pays her 50: Alice's entry becomes 80 | a payment reduces what the payer owes the payee by the amount | not executed | Ledger.PayAsWrittenExample | Ledger.PaySettlesDebt |
| bookMyShow.js:371-387 | cancelBooking deletes every seat of the booking from the show, whoever now holds it, and a cancelled booking can be cancelled again | b1 books A1 and is cancelled; b2 books A1; cancelling b1 again frees A1 while b2 still holds it | only the seats the cancelled booking still holds are freed | not executed | Tickets.ReleaseAsWrittenFreesOthersSeats | Tickets.ReleaseExactly |

