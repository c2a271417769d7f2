/** ExpenseManager of splitwise/splitwiseLLD.js: the service that owns the
    users, groups, expenses and payments, charges expenses to the users'
    pairwise balances and records payments. Users and groups are handed to
    the constructor already registered. */
module Manager {
  import opened Common
  import opened Ledger
  import opened Splits
  import opened Settlement
  import opened Splitwise

  /** The expense ids each user of `sets` takes part in, with `id` added for the users in `who`. */
  ghost function WithExpense(sets: map<UserId, set<ExpenseId>>, who: set<UserId>, id: ExpenseId): (r: map<UserId, set<ExpenseId>>)
    ensures r.Keys == sets.Keys
  {
    map u | u in sets :: if u in who then sets[u] + {id} else sets[u]
  }

  /** Recording the expense id adds exactly it, and exactly to the participants. */
  lemma WithExpenseEffect(sets: map<UserId, set<ExpenseId>>, who: set<UserId>, id: ExpenseId)
    ensures forall u | u in sets :: id in WithExpense(sets, who, id)[u] <==> (u in who || id in sets[u])
    ensures forall u | u in sets :: sets[u] <= WithExpense(sets, who, id)[u] && WithExpense(sets, who, id)[u] - {id} == sets[u] - {id}
  {
  }

  lemma WithExpenseStep(sets: map<UserId, set<ExpenseId>>, who: set<UserId>, u: UserId, id: ExpenseId)
    requires u in sets
    ensures WithExpense(sets, who + {u}, id) == WithExpense(sets, who, id)[u := WithExpense(sets, who, id)[u] + {id}]
  {
  }

  /** Every user's balances, as one ledger. */
  ghost function BalancesOf(users: map<UserId, User>): (book: Book)
    reads users.Values
    ensures book.Keys == users.Keys
  {
    map u | u in users :: users[u].balances
  }

  /** Every user's expense ids. */
  ghost function ExpenseSetsOf(users: map<UserId, User>): (sets: map<UserId, set<ExpenseId>>)
    reads users.Values
    ensures sets.Keys == users.Keys
  {
    map u | u in users :: users[u].expenses
  }

  /** Each user is stored under its own id, so distinct keys hold distinct users. */
  predicate Keyed(users: map<UserId, User>) {
    forall u | u in users :: users[u].id == u
  }

  /** The users' balances form a closed, antisymmetric ledger whose totals add up to zero. */
  ghost predicate Consistent(users: map<UserId, User>)
    reads users.Values
  {
    var book := BalancesOf(users);
    Closed(book) && Antisymmetric(book) && Total(book) == 0.0
  }

  /** One updateBalanceWith call on the user stored under `u`. */
  method UpdateBalance(users: map<UserId, User>, u: UserId, v: UserId, x: real)
    requires Keyed(users) && u in users
    modifies users[u]
    ensures BalancesOf(users) == old(BalancesOf(users))[u := Bump(old(BalancesOf(users))[u], v, x)]
    ensures ExpenseSetsOf(users) == old(ExpenseSetsOf(users))
  {
    users[u].UpdateBalanceWith(v, x);
  }

  /** addExpense on the user stored under `u`. */
  method RecordExpense(users: map<UserId, User>, u: UserId, id: ExpenseId)
    requires Keyed(users) && u in users
    modifies users[u]
    ensures BalancesOf(users) == old(BalancesOf(users))
    ensures ExpenseSetsOf(users) == old(ExpenseSetsOf(users))[u := old(ExpenseSetsOf(users))[u] + {id}]
  {
    users[u].AddExpense(id);
  }

  /** The body of addExpenseToGroup's loop for one participant: the pair
      update when the participant is not the payer, then the expense id. */
  method ChargeOne(users: map<UserId, User>, paidBy: UserId, userId: UserId, amount: real, expenseId: ExpenseId)
    requires Keyed(users) && userId in users && (userId != paidBy ==> paidBy in users)
    modifies users.Values
    ensures userId != paidBy ==> BalancesOf(users) == Pair(old(BalancesOf(users)), paidBy, userId, amount)
    ensures userId == paidBy ==> BalancesOf(users) == old(BalancesOf(users))
    ensures ExpenseSetsOf(users) == old(ExpenseSetsOf(users))[userId := old(ExpenseSetsOf(users))[userId] + {expenseId}]
  {
    if userId != paidBy {
      ghost var before := BalancesOf(users);
      UpdateBalance(users, paidBy, userId, amount);
      ghost var between := BalancesOf(users);
      UpdateBalance(users, userId, paidBy, -amount);
      PairInSteps(before, paidBy, userId, amount, between, BalancesOf(users));
    }
    RecordExpense(users, userId, expenseId);
  }

  /** Visiting one more participant: its pair update is charged and its expense id recorded. */
  lemma SplitsVisit(book: Book, sets: map<UserId, set<ExpenseId>>, paidBy: UserId, splits: map<UserId, real>,
                    rest: map<UserId, real>, k: UserId, id: ExpenseId)
    requires k in rest && Submap(rest, splits) && splits.Keys <= sets.Keys && splits.Keys <= book.Keys
    requires k != paidBy ==> paidBy in book
    ensures Submap(rest - {k}, splits) && |rest - {k}| < |rest|
    ensures k != paidBy ==>
      Charge(book, paidBy, splits - (rest - {k}).Keys) == Pair(Charge(book, paidBy, splits - rest.Keys), paidBy, k, rest[k])
    ensures k == paidBy ==>
      Charge(book, paidBy, splits - (rest - {k}).Keys) == Charge(book, paidBy, splits - rest.Keys)
    ensures WithExpense(sets, (splits - (rest - {k}).Keys).Keys, id) ==
      WithExpense(sets, (splits - rest.Keys).Keys, id)[k := WithExpense(sets, (splits - rest.Keys).Keys, id)[k] + {id}]
  {
    DoneStep(splits, rest, k);
    WithExpenseStep(sets, (splits - rest.Keys).Keys, k, id);
    ChargeVisit(book, paidBy, splits, rest, k);
  }

  /** The two updateBalanceWith calls of createPayment, with the signs that settle debt. */
  method PayBetween(users: map<UserId, User>, fromUser: UserId, toUser: UserId, amount: real)
    requires Keyed(users) && fromUser in users && toUser in users
    modifies users.Values
    ensures BalancesOf(users) == Pay(old(BalancesOf(users)), fromUser, toUser, amount)
    ensures ExpenseSetsOf(users) == old(ExpenseSetsOf(users))
  {
    ghost var before := BalancesOf(users);
    UpdateBalance(users, fromUser, toUser, amount);
    ghost var between := BalancesOf(users);
    UpdateBalance(users, toUser, fromUser, -amount);
    PairInSteps(before, fromUser, toUser, amount, between, BalancesOf(users));
  }

  /** A payment between two registered users keeps their balances consistent. */
  method SettlePayment(users: map<UserId, User>, fromUser: UserId, toUser: UserId, amount: real)
    requires Keyed(users) && fromUser in users && toUser in users && Consistent(users)
    modifies users.Values
    ensures BalancesOf(users) == Pay(old(BalancesOf(users)), fromUser, toUser, amount)
    ensures ExpenseSetsOf(users) == old(ExpenseSetsOf(users))
    ensures Consistent(users)
  {
    ghost var before := BalancesOf(users);
    PayBetween(users, fromUser, toUser, amount);
    PaySettlesDebt(before, fromUser, toUser, amount);
  }

  /** Before the loop nothing is charged and no expense id is recorded. */
  lemma NothingVisited(book: Book, sets: map<UserId, set<ExpenseId>>, paidBy: UserId, splits: map<UserId, real>, id: ExpenseId)
    ensures Charge(book, paidBy, splits - splits.Keys) == book
    ensures WithExpense(sets, (splits - splits.Keys).Keys, id) == sets
  {
    assert splits - splits.Keys == map[];
    ChargeNothing(book, paidBy);
  }

  /** The users are stored under their ids, `book` and `sets` cover exactly
      them, and every participant is one of them (the payer too, when anyone else takes part). */
  predicate Chargeable(users: map<UserId, User>, book: Book, sets: map<UserId, set<ExpenseId>>,
                       paidBy: UserId, splits: map<UserId, real>)
  {
    Keyed(users) && book.Keys == users.Keys && sets.Keys == users.Keys &&
    splits.Keys <= users.Keys && (splits.Keys - {paidBy} != {} ==> paidBy in users)
  }

  /** One turn of addExpenseToGroup's loop: the participant `userId` still to
      visit is charged and leaves the part still to visit. */
  method ChargeNext(users: map<UserId, User>, expenseId: ExpenseId, paidBy: UserId, splits: map<UserId, real>,
                    ghost book: Book, ghost sets: map<UserId, set<ExpenseId>>, rest: map<UserId, real>, userId: UserId)
    requires Chargeable(users, book, sets, paidBy, splits)
    requires userId in rest && Submap(rest, splits)
    requires BalancesOf(users) == Charge(book, paidBy, splits - rest.Keys)
    requires ExpenseSetsOf(users) == WithExpense(sets, (splits - rest.Keys).Keys, expenseId)
    modifies users.Values
    ensures Submap(rest - {userId}, splits) && |rest - {userId}| < |rest|
    ensures BalancesOf(users) == Charge(book, paidBy, splits - (rest - {userId}).Keys)
    ensures ExpenseSetsOf(users) == WithExpense(sets, (splits - (rest - {userId}).Keys).Keys, expenseId)
  {
    assert userId != paidBy ==> userId in splits.Keys - {paidBy};
    SplitsVisit(book, sets, paidBy, splits, rest, userId, expenseId);
    ChargeOne(users, paidBy, userId, rest[userId], expenseId);
  }

  /** The loop of addExpenseToGroup over the expense's splits. */
  method ChargeSplits(users: map<UserId, User>, expenseId: ExpenseId, paidBy: UserId, splits: map<UserId, real>)
    requires Keyed(users)
    requires splits.Keys <= users.Keys && (splits.Keys - {paidBy} != {} ==> paidBy in users)
    modifies users.Values
    ensures BalancesOf(users) == Charge(old(BalancesOf(users)), paidBy, splits)
    ensures ExpenseSetsOf(users) == WithExpense(old(ExpenseSetsOf(users)), splits.Keys, expenseId)
  {
    ghost var book := BalancesOf(users);
    ghost var sets := ExpenseSetsOf(users);
    NothingVisited(book, sets, paidBy, splits, expenseId);
    assert Chargeable(users, book, sets, paidBy, splits);
    var rest := splits;
    while rest != map[]
      invariant Submap(rest, splits)
      invariant BalancesOf(users) == Charge(book, paidBy, splits - rest.Keys)
      invariant ExpenseSetsOf(users) == WithExpense(sets, (splits - rest.Keys).Keys, expenseId)
      decreases |rest|
    {
      SomeKey(rest);
      var userId :| userId in rest;
      ChargeNext(users, expenseId, paidBy, splits, book, sets, rest, userId);
      rest := rest - {userId};
    }
    AllVisited(splits, rest);
  }

  class ExpenseManager {
    /** the registered users and groups; registration is not part of this model */
    const users: map<UserId, User>
    const groups: map<GroupId, Group>
    var expenses: map<ExpenseId, Expense>
    var payments: map<PaymentId, Payment>
    /** idCounter.expense and idCounter.payment: the next ids handed out */
    var nextExpenseId: ExpenseId
    var nextPaymentId: PaymentId

    ghost function Balances(): Book
      reads users.Values
    {
      BalancesOf(users)
    }

    ghost function ExpenseSets(): map<UserId, set<ExpenseId>>
      reads users.Values
    {
      ExpenseSetsOf(users)
    }

    /** Expenses and payments are stored under their own ids, all below the next id to hand out. */
    ghost predicate Numbered()
      reads this
    {
      (forall e | e in expenses :: e < nextExpenseId && expenses[e].id == e) &&
      (forall p | p in payments :: p < nextPaymentId && payments[p].id == p)
    }

    ghost predicate Valid()
      reads this, users.Values
    {
      Keyed(users) && Numbered() && Consistent(users)
    }

    constructor(users: map<UserId, User>, groups: map<GroupId, Group>)
      requires forall u | u in users :: users[u].id == u && users[u].balances == map[]
      ensures Valid()
      ensures this.users == users && this.groups == groups
      ensures expenses == map[] && payments == map[]
      ensures nextExpenseId == 1 && nextPaymentId == 1
    {
      this.users := users;
      this.groups := groups;
      expenses := map[];
      payments := map[];
      nextExpenseId := 1;
      nextPaymentId := 1;
      new;
      forall u | u in Balances() ensures Sum(Balances()[u]) == 0.0 {
        SumZero(Balances()[u]);
      }
      SumZero(RowSums(Balances()));
    }

    /** Registers a new expense under the next id; its splits are still empty. */
    method CreateExpense(description: string, amount: real, paidBy: UserId, expenseType: ExpenseType) returns (expense: Expense)
      requires Valid()
      modifies this
      ensures Valid()
      ensures fresh(expense)
      ensures expense.id == old(nextExpenseId) && expense.paidBy == paidBy && expense.amount == amount
      ensures expense.expenseType == expenseType && expense.splits == map[]
      ensures old(nextExpenseId) !in old(expenses)
      ensures expenses == old(expenses)[old(nextExpenseId) := expense]
      ensures nextExpenseId == old(nextExpenseId) + 1
      ensures payments == old(payments)
      ensures nextPaymentId == old(nextPaymentId)
    {
      var expenseId := nextExpenseId;
      nextExpenseId := nextExpenseId + 1;
      expense := new Expense(expenseId, description, amount, paidBy, expenseType);
      expenses := expenses[expenseId := expense];
      assert Consistent(users);
    }

    /** Distributes the expense, adds it to the group and charges the splits to
        the users' balances; an unknown expense or group changes nothing. */
    method AddExpenseToGroup(expenseId: ExpenseId, groupId: GroupId, participants: seq<UserId>, distribution: Distribution)
      returns (result: Result<Expense, ManagerError>)
      requires Valid()
      requires expenseId in expenses && groupId in groups ==>
        Distributable(expenses[expenseId], participants, distribution, users)
      modifies if expenseId in expenses then {expenses[expenseId]} else {}
      modifies if groupId in groups then {groups[groupId]} else {}
      modifies users.Values
      ensures Valid()
      ensures expenses == old(expenses) && payments == old(payments)
      ensures nextExpenseId == old(nextExpenseId) && nextPaymentId == old(nextPaymentId)
      ensures expenseId !in expenses || groupId !in groups ==>
        result == Err(ExpenseOrGroupNotFound) && Balances() == old(Balances()) && ExpenseSets() == old(ExpenseSets())
      ensures expenseId in expenses && groupId in groups ==>
        ExpenseAdded(old(expenses[expenseId].splits), old(groups[groupId].expenses), groups[groupId].expenses,
          old(BalancesOf(users)), old(ExpenseSetsOf(users)), expenses[expenseId], participants, distribution, users, result)
    {
      if expenseId !in expenses || groupId !in groups {
        return Err(ExpenseOrGroupNotFound);
      }
      var expense := expenses[expenseId];
      ghost var book := Balances();
      result := AddExpense(expense, groups[groupId], participants, distribution, users);
      if result.Ok? {
        ChargeConsistent(book, expense.paidBy, expense.splits);
      }
    }

    /** Records a payment under the next id, then moves the amount between the
        two users' balances: the payer's entry for the payee rises by the amount
        and the payee's entry for the payer falls by it, so the payer's debt
        shrinks. The payment stays recorded when a user is unknown. */
    method CreatePayment(fromUser: UserId, toUser: UserId, amount: real, relatedExpense: Option<ExpenseId>)
      returns (result: Result<Payment, ManagerError>)
      requires Valid()
      modifies this, users.Values
      ensures Valid()
      ensures var payment := Payment(old(nextPaymentId), fromUser, toUser, amount, Pending, relatedExpense);
        old(nextPaymentId) !in old(payments) &&
        payments == old(payments)[old(nextPaymentId) := payment] &&
        (fromUser in users && toUser in users ==> result == Ok(payment)) &&
        (fromUser !in users || toUser !in users ==> result == Err(UserNotFound))
      ensures nextPaymentId == old(nextPaymentId) + 1
      ensures expenses == old(expenses) && nextExpenseId == old(nextExpenseId)
      ensures fromUser in users && toUser in users ==>
        Balances() == Pay(old(Balances()), fromUser, toUser, amount) && ExpenseSets() == old(ExpenseSets())
      ensures fromUser !in users || toUser !in users ==> unchanged(users.Values)
    {
      var payment := RecordPayment(fromUser, toUser, amount, relatedExpense);
      if fromUser !in users || toUser !in users {
        return Err(UserNotFound);
      }
      SettlePayment(users, fromUser, toUser, amount);
      result := Ok(payment);
    }

    /** Stores a pending payment under the next payment id. */
    method RecordPayment(fromUser: UserId, toUser: UserId, amount: real, relatedExpense: Option<ExpenseId>)
      returns (payment: Payment)
      requires Valid()
      modifies this
      ensures Valid()
      ensures payment == Payment(old(nextPaymentId), fromUser, toUser, amount, Pending, relatedExpense)
      ensures old(nextPaymentId) !in old(payments)
      ensures payments == old(payments)[old(nextPaymentId) := payment]
      ensures nextPaymentId == old(nextPaymentId) + 1
      ensures expenses == old(expenses) && nextExpenseId == old(nextExpenseId)
      ensures unchanged(users.Values)
    {
      payment := Payment(nextPaymentId, fromUser, toUser, amount, Pending, relatedExpense);
      payments := payments[nextPaymentId := payment];
      nextPaymentId := nextPaymentId + 1;
    }

    /** The user's total balance and balances; an unknown user is an error. */
    method GetUserBalances(userId: UserId) returns (result: Result<UserBalances, ManagerError>)
      ensures userId in users ==> result == Ok(UserBalances(Sum(users[userId].balances), users[userId].balances))
      ensures userId !in users ==> result == Err(UserNotFound)
    {
      if userId !in users {
        return Err(UserNotFound);
      }
      var user := users[userId];
      var total := user.GetTotalBalance();
      result := Ok(UserBalances(total, user.balances));
    }

    /** The group's balance sheet, rebuilt from its expenses; an unknown group is an error. */
    method GetGroupBalanceSheet(groupId: GroupId) returns (result: Result<Book, ManagerError>)
      requires groupId in groups ==> groups[groupId].Sheetable()
      ensures groupId in groups ==> result == Ok(groups[groupId].Sheet())
      ensures groupId !in groups ==> result == Err(GroupNotFound)
    {
      if groupId !in groups {
        return Err(GroupNotFound);
      }
      var sheet := groups[groupId].GetBalanceSheet();
      result := Ok(sheet);
    }

    /** Transfers that settle the group's balance sheet; an unknown group is an error. */
    method GetSimplifiedDebts(groupId: GroupId) returns (result: Result<seq<Transfer>, ManagerError>)
      requires groupId in groups ==> groups[groupId].Sheetable()
      ensures groupId in groups ==> result.Ok? && Settles(groups[groupId].Sheet(), groups[groupId].members, result.value)
      ensures groupId !in groups ==> result == Err(GroupNotFound)
    {
      if groupId !in groups {
        return Err(GroupNotFound);
      }
      var transfers := groups[groupId].SimplifyDebts();
      result := Ok(transfers);
    }
  }

  /** What addExpenseToGroup demands of an expense found in the manager: when
      distribute succeeds, every
      participant (and the payer, when anyone else takes part) a registered user. */
  ghost predicate Distributable(e: Expense, participants: seq<UserId>, distribution: Distribution, users: map<UserId, User>)
    reads e
  {
    (Failure(e.expenseType, e.amount, participants, distribution) == None ==>
      var splits := e.splits + Written(e.expenseType, e.amount, participants, distribution);
      splits.Keys <= users.Keys && (splits.Keys - {e.paidBy} != {} ==> e.paidBy in users))
  }

  /** The outcome of addExpenseToGroup for an expense and a group that exist:
      the expense's splits are written; on a distribution error that error is
      returned and nothing else changes; otherwise the group holds the expense,
      the splits are charged to the ledger and every participant records the expense. */
  ghost predicate ExpenseAdded(splits0: map<UserId, real>, groupExpenses0: seq<Expense>, groupExpenses: seq<Expense>,
                        book0: Book, sets0: map<UserId, set<ExpenseId>>,
                        e: Expense, participants: seq<UserId>, distribution: Distribution,
                        users: map<UserId, User>, result: Result<Expense, ManagerError>)
    reads e, users.Values
  {
    var failure := Failure(e.expenseType, e.amount, participants, distribution);
    e.splits == splits0 + Written(e.expenseType, e.amount, participants, distribution) &&
    (failure.Some? ==>
      result == Err(SplitFailed(failure.value)) && groupExpenses == groupExpenses0 &&
      BalancesOf(users) == book0 && ExpenseSetsOf(users) == sets0) &&
    (failure.None? ==>
      result == Ok(e) && groupExpenses == Added(groupExpenses0, e) &&
      e.splits.Keys <= book0.Keys &&
      BalancesOf(users) == Charge(book0, e.paidBy, e.splits) &&
      ExpenseSetsOf(users) == WithExpense(sets0, e.splits.Keys, e.id))
  }

  /** addExpenseToGroup once the expense and the group are found. */
  method AddExpense(expense: Expense, group: Group, participants: seq<UserId>, distribution: Distribution, users: map<UserId, User>)
    returns (result: Result<Expense, ManagerError>)
    requires Keyed(users)
    requires Distributable(expense, participants, distribution, users)
    modifies expense, group, users.Values
    ensures ExpenseAdded(old(expense.splits), old(group.expenses), group.expenses, old(BalancesOf(users)), old(ExpenseSetsOf(users)),
      expense, participants, distribution, users, result)
    ensures result.Ok? ==> expense.paidBy in users || expense.splits.Keys - {expense.paidBy} == {}
  {
    ghost var book := BalancesOf(users);
    ghost var sets := ExpenseSetsOf(users);
    var error := expense.Distribute(participants, distribution);
    assert BalancesOf(users) == book;
    assert ExpenseSetsOf(users) == sets;
    if error.Some? {
      return Err(SplitFailed(error.value));
    }
    group.AddExpense(expense);
    assert BalancesOf(users) == book;
    assert ExpenseSetsOf(users) == sets;
    var paidBy := expense.paidBy;
    var splits := expense.splits;
    ChargeSplits(users, expense.id, paidBy, splits);
    result := Ok(expense);
  }

  /** Charging a ledger with splits among its users, paid by one of them when
      anyone else takes part, keeps it consistent. */
  lemma ChargeConsistent(book: Book, paidBy: UserId, splits: map<UserId, real>)
    requires Closed(book) && Antisymmetric(book) && Total(book) == 0.0
    requires splits.Keys <= book.Keys && (splits.Keys - {paidBy} != {} ==> paidBy in book)
    ensures var after := Charge(book, paidBy, splits);
      Closed(after) && Antisymmetric(after) && Total(after) == 0.0
  {
    if splits != map[] {
      var k :| k in splits;
      if k != paidBy {
        assert k in splits.Keys - {paidBy};
      }
      ChargeKeepsInvariants(book, paidBy, splits);
    } else {
      ChargeNothing(book, paidBy);
    }
  }
}
