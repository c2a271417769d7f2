/** The entities and the service of splitwise/splitwiseLLD.js: users with
    pairwise balances, expenses that distribute an amount, groups that rebuild
    a balance sheet from their expenses and simplify it, and the manager that
    ties them together. */
module Splitwise {
  import opened Common
  import opened Ledger
  import opened Splits
  import opened Settlement

  type GroupId = nat
  type PaymentId = nat

  datatype PaymentStatus = Pending | Completed | Cancelled

  /** A recorded payment; the manager keeps payments as values. */
  datatype Payment = Payment(
    id: PaymentId, fromUser: UserId, toUser: UserId, amount: real,
    status: PaymentStatus, relatedExpense: Option<ExpenseId>)

  /** What getUserBalances returns. */
  datatype UserBalances = UserBalances(totalBalance: real, balances: Row)

  /** Why a manager operation throws. */
  datatype ManagerError =
    | UserNotFound
    | GroupNotFound
    | ExpenseOrGroupNotFound
    | SplitFailed(reason: SplitError)

  class User {
    const id: UserId
    const name: string
    const email: string
    /** counterparty -> amount; positive means the counterparty owes this user */
    var balances: Row
    /** the ids of the expenses this user takes part in */
    var expenses: set<ExpenseId>

    constructor(id: UserId, name: string, email: string)
      ensures this.id == id && this.name == name && this.email == email
      ensures balances == map[] && expenses == {}
    {
      this.id := id;
      this.name := name;
      this.email := email;
      balances := map[];
      expenses := {};
    }

    method AddExpense(expenseId: ExpenseId)
      modifies this
      ensures expenses == old(expenses) + {expenseId}
      ensures balances == old(balances)
    {
      expenses := expenses + {expenseId};
    }

    /** The sum of all of this user's balances: what the user is owed, net. */
    method GetTotalBalance() returns (total: real)
      ensures total == Sum(balances)
    {
      total := SumValues(balances);
    }

    method UpdateBalanceWith(userId: UserId, amount: real)
      modifies this
      ensures balances == Bump(old(balances), userId, amount)
      ensures expenses == old(expenses)
    {
      var currentBalance := Get(balances, userId);
      balances := balances[userId := currentBalance + amount];
    }
  }

  class Expense {
    const id: ExpenseId
    const description: string
    const amount: real
    const paidBy: UserId
    const expenseType: ExpenseType
    /** participant -> share of the amount */
    var splits: map<UserId, real>

    constructor(id: ExpenseId, description: string, amount: real, paidBy: UserId, expenseType: ExpenseType)
      ensures this.id == id && this.description == description && this.amount == amount
      ensures this.paidBy == paidBy && this.expenseType == expenseType
      ensures splits == map[]
    {
      this.id := id;
      this.description := description;
      this.amount := amount;
      this.paidBy := paidBy;
      this.expenseType := expenseType;
      splits := map[];
    }

    /** Writes the shares into `splits` according to the expense type and
        returns the error the source throws, if any, or NonFiniteSplit where the
        source would write a NaN or infinite share; entries written before a
        failed validation stay written. */
    method Distribute(participants: seq<UserId>, distribution: Distribution) returns (error: Option<SplitError>)
      modifies this
      ensures splits == old(splits) + Written(expenseType, amount, participants, distribution)
      ensures error == Failure(expenseType, amount, participants, distribution)
    {
      match expenseType {
        case Equal =>
          DistributeEqually(participants);
          error := None;
        case Exact =>
          if distribution.Amounts? {
            error := DistributeExactly(distribution.amounts);
          } else {
            error := Some(MissingDistribution);
          }
        case Percentage =>
          if distribution.Weights? {
            error := DistributeByPercentage(participants, distribution.weights);
          } else if participants == [] {
            error := Some(PercentageSumMismatch);
          } else if distribution.NoDistribution? {
            error := Some(MissingDistribution);
          } else {
            error := Some(NonFiniteSplit);
          }
        case Shares =>
          if distribution.Weights? {
            error := DistributeByShares(participants, distribution.weights);
          } else {
            error := Some(MissingDistribution);
          }
        case Invalid(_) =>
          error := Some(InvalidExpenseType);
      }
    }

    method DistributeEqually(participants: seq<UserId>)
      modifies this
      ensures splits == old(splits) + EqualShares(amount, participants)
    {
      if |participants| > 0 {
        var share := amount / (|participants| as real);
        var index := 0;
        while index < |participants|
          invariant 0 <= index <= |participants|
          invariant splits == old(splits) + map p | p in participants[..index] :: share
        {
          assert participants[..index + 1] == participants[..index] + [participants[index]];
          splits := splits[participants[index] := share];
          index := index + 1;
        }
        assert participants[..index] == participants;
      }
    }

    method DistributeExactly(exactAmounts: map<UserId, real>) returns (error: Option<SplitError>)
      modifies this
      ensures splits == old(splits) + exactAmounts
      ensures error == if Abs(Sum(exactAmounts) - amount) > Tolerance then Some(ExactSumMismatch) else None
    {
      var written, totalAmount := CopyEntries(splits, exactAmounts);
      splits := written;
      error := if Abs(totalAmount - amount) > Tolerance then Some(ExactSumMismatch) else None;
    }

    /** The loop stops at the first participant without a percentage, where
        the source's share and total become NaN and its check no longer fires. */
    method DistributeByPercentage(participants: seq<UserId>, percentages: seq<real>) returns (error: Option<SplitError>)
      modifies this
      ensures splits == old(splits) + FiniteShares(amount, participants, percentages, 100.0)
      ensures |percentages| < |participants| ==> error == Some(NonFiniteSplit)
      ensures |percentages| >= |participants| ==>
        error == (if Abs(SeqSum(percentages[..|participants|]) - 100.0) > Tolerance then Some(PercentageSumMismatch) else None)
    {
      var finite := participants[..FiniteCount(participants, percentages, 100.0)];
      var totalPercentage := 0.0;
      var index := 0;
      while index < |finite|
        invariant 0 <= index <= |finite|
        invariant totalPercentage == SeqSum(percentages[..index])
        invariant splits == old(splits) + Assign(finite[..index], Scaled(Div(amount, 100.0), percentages))
      {
        var percentage := percentages[index];
        totalPercentage := totalPercentage + percentage;
        var share := Div(Mul(amount, percentage), 100.0);
        ProportionalStep(amount, finite, percentages, 100.0, index);
        MergeUpdate(old(splits), Assign(finite[..index], Scaled(Div(amount, 100.0), percentages)), finite[index], share);
        assert percentages[..index + 1][..index] == percentages[..index];
        splits := splits[finite[index] := share];
        index := index + 1;
      }
      assert finite[..index] == finite;
      if |finite| < |participants| {
        error := Some(NonFiniteSplit);
      } else {
        error := if Abs(totalPercentage - 100.0) > Tolerance then Some(PercentageSumMismatch) else None;
      }
    }

    /** The loop stops at the first participant whose share is not finite:
        every one when the shares add up to 0, and those past the end of the list. */
    method DistributeByShares(participants: seq<UserId>, shares: seq<real>) returns (error: Option<SplitError>)
      modifies this
      ensures splits == old(splits) + FiniteShares(amount, participants, shares, SeqSum(shares))
      ensures error == if |participants| > 0 && (|shares| < |participants| || SeqSum(shares) == 0.0)
                       then Some(NonFiniteSplit) else None
    {
      var totalShares := SeqSum(shares);
      var finite := participants[..FiniteCount(participants, shares, totalShares)];
      if totalShares != 0.0 {
        var index := 0;
        while index < |finite|
          invariant 0 <= index <= |finite|
          invariant splits == old(splits) + Assign(finite[..index], Scaled(Div(amount, totalShares), shares))
        {
          var userShares := shares[index];
          var share := Div(Mul(amount, userShares), totalShares);
          ProportionalStep(amount, finite, shares, totalShares, index);
          MergeUpdate(old(splits), Assign(finite[..index], Scaled(Div(amount, totalShares), shares)), finite[index], share);
          splits := splits[finite[index] := share];
          index := index + 1;
        }
        assert finite[..index] == finite;
      }
      error := if |finite| < |participants| then Some(NonFiniteSplit) else None;
    }
  }

  /** One more participant of a proportional split gets `amount * weight / denominator`. */
  lemma ProportionalStep(amount: real, participants: seq<UserId>, weights: seq<real>, denominator: real, index: nat)
    requires index < |participants| <= |weights| && denominator != 0.0
    ensures Assign(participants[..index + 1], Scaled(Div(amount, denominator), weights)) ==
      Assign(participants[..index], Scaled(Div(amount, denominator), weights))[participants[index] := Div(Mul(amount, weights[index]), denominator)]
  {
    var values := Scaled(Div(amount, denominator), weights);
    var longer := participants[..index + 1];
    assert longer[..index] == participants[..index] && longer[index] == participants[index];
    assert Assign(longer, values) == Assign(longer[..index], values)[longer[index] := values[index]];
    ShareIsScaled(amount, weights[index], denominator);
  }

  /** `amount * weight / denominator` is the weight times `amount / denominator`. */
  lemma ShareIsScaled(amount: real, weight: real, denominator: real)
    requires denominator != 0.0
    ensures Mul(weight, Div(amount, denominator)) == Div(Mul(amount, weight), denominator)
  {
  }

  /** One `[paidBy, splits]` pair of an expense, as the balance sheet reads it. */
  datatype Entry = Entry(payer: UserId, splits: map<UserId, real>)

  function EntriesOf(es: seq<Expense>): (r: seq<Entry>)
    reads set e | e in es
    ensures |r| == |es|
    ensures forall k | 0 <= k < |es| :: r[k] == Entry(es[k].paidBy, es[k].splits)
  {
    if es == [] then []
    else EntriesOf(es[..|es| - 1]) + [Entry(es[|es| - 1].paidBy, es[|es| - 1].splits)]
  }

  /** Every payer and participant is a row of the sheet. */
  predicate Fits(entries: seq<Entry>, keys: set<UserId>) {
    forall k | 0 <= k < |entries| :: entries[k].payer in keys && entries[k].splits.Keys <= keys
  }

  /** The freshly initialised balance sheet: a row per member with a 0 entry for every other member. */
  function ZeroSheet(members: seq<UserId>): (sheet: Book)
    ensures sheet.Keys == set u | u in members
  {
    map u | u in members :: map v | v in members && v != u :: 0.0
  }

  /** The balance sheet after the entries, applied in order. */
  function Replay(book: Book, entries: seq<Entry>): (sheet: Book)
    requires Fits(entries, book.Keys)
    ensures sheet.Keys == book.Keys
  {
    if entries == [] then book
    else
      var n := |entries| - 1;
      var before := Replay(book, entries[..n]);
      ChargeEffect(before, entries[n].payer, entries[n].splits);
      Charge(before, entries[n].payer, entries[n].splits)
  }

  lemma ZeroSheetShape(members: seq<UserId>)
    ensures Closed(ZeroSheet(members)) && Antisymmetric(ZeroSheet(members))
    ensures Total(ZeroSheet(members)) == 0.0
  {
    var sheet := ZeroSheet(members);
    forall u | u in sheet ensures Sum(sheet[u]) == 0.0 {
      SumZero(sheet[u]);
    }
    SumZero(RowSums(sheet));
  }

  /** The balance sheet is closed, antisymmetric, and its members' totals add up to zero. */
  lemma {:induction false} SheetShape(members: seq<UserId>, entries: seq<Entry>)
    requires Fits(entries, ZeroSheet(members).Keys)
    ensures Closed(Replay(ZeroSheet(members), entries))
    ensures Antisymmetric(Replay(ZeroSheet(members), entries))
    ensures Total(Replay(ZeroSheet(members), entries)) == 0.0
  {
    if entries == [] {
      ZeroSheetShape(members);
    } else {
      var n := |entries| - 1;
      SheetShape(members, entries[..n]);
      ChargeKeepsInvariants(Replay(ZeroSheet(members), entries[..n]), entries[n].payer, entries[n].splits);
    }
  }

  /** The loop of distributeExactly: every entry of `m` is written over `base`,
      and the values are added up along the way. */
  method CopyEntries(base: map<UserId, real>, m: map<UserId, real>) returns (result: map<UserId, real>, total: real)
    ensures result == base + m
    ensures total == Sum(m)
  {
    result, total := base, 0.0;
    var rest := m;
    while rest != map[]
      invariant Submap(rest, m)
      invariant result == base + (m - rest.Keys)
      invariant total + Sum(rest) == Sum(m)
      decreases |rest|
    {
      var userId :| userId in rest;
      var share := rest[userId];
      CopyStep(base, m, rest, userId);
      result := result[userId := share];
      total := total + share;
      rest := rest - {userId};
    }
    AllVisited(m, rest);
  }

  /** The body of getBalanceSheet's inner loop for a participant other than the
      payer: the payer's entry for the participant grows by the amount, then the
      participant's entry for the payer shrinks by it. */
  method WritePair(sheet: Book, paidBy: UserId, userId: UserId, amount: real) returns (result: Book)
    requires paidBy in sheet && userId in sheet
    ensures result == Pair(sheet, paidBy, userId, amount)
  {
    var payerBalance := Get(sheet[paidBy], userId);
    result := sheet[paidBy := sheet[paidBy][userId := payerBalance + amount]];
    var payeeBalance := Get(result[userId], paidBy);
    result := result[userId := result[userId][paidBy := payeeBalance - amount]];
  }

  /** The inner loop of getBalanceSheet: one expense's splits applied to the sheet. */
  method ChargeSheet(sheet: Book, paidBy: UserId, splits: map<UserId, real>) returns (result: Book)
    requires paidBy in sheet && splits.Keys <= sheet.Keys
    ensures result == Charge(sheet, paidBy, splits)
  {
    result := sheet;
    var rest := splits;
    ChargeNothing(sheet, paidBy);
    assert splits - rest.Keys == map[];
    while rest != map[]
      invariant Submap(rest, splits)
      invariant result == Charge(sheet, paidBy, splits - rest.Keys)
      decreases |rest|
    {
      var userId :| userId in rest;
      var amount := rest[userId];
      ChargeVisit(sheet, paidBy, splits, rest, userId);
      if userId != paidBy {
        result := WritePair(result, paidBy, userId, amount);
      }
      rest := rest - {userId};
    }
    AllVisited(splits, rest);
  }

  /** The position of the expense with this id, or -1. */
  function IndexOf(es: seq<Expense>, id: ExpenseId): (k: int)
    ensures -1 <= k < |es|
    ensures k >= 0 ==> es[k].id == id
    ensures k < 0 ==> forall l | 0 <= l < |es| :: es[l].id != id
  {
    if es == [] then -1
    else if es[|es| - 1].id == id then |es| - 1
    else IndexOf(es[..|es| - 1], id)
  }

  predicate UniqueIds(es: seq<Expense>) {
    forall x, y | 0 <= x < y < |es| :: es[x].id != es[y].id
  }

  /** `expenses.set(expense.id, expense)` on an insertion-ordered map: an expense
      with the same id is replaced where it stands, otherwise the expense goes last. */
  function Added(es: seq<Expense>, e: Expense): (r: seq<Expense>)
    ensures e in r
    ensures forall x | x in es && x.id != e.id :: x in r
    ensures forall x | x in r :: x == e || x in es
    ensures UniqueIds(es) ==> UniqueIds(r)
  {
    var k := IndexOf(es, e.id);
    if k >= 0 then
      ReplaceKeeps(es, k, e);
      es[k := e]
    else
      assert (es + [e])[|es|] == e;
      es + [e]
  }

  lemma ReplaceKeeps(es: seq<Expense>, k: int, e: Expense)
    requires 0 <= k < |es| && es[k].id == e.id
    ensures e in es[k := e]
    ensures forall x | x in es && x.id != e.id :: x in es[k := e]
  {
    assert es[k := e][k] == e;
    forall x | x in es && x.id != e.id ensures x in es[k := e] {
      var l :| 0 <= l < |es| && es[l] == x;
      assert es[k := e][l] == x;
    }
  }

  /** The balance sheet of a group of these members and these expenses, with
      the simplified transfers: everyone settles exactly, money flows only from
      members who owe to members who are owed, and there are at most n - 1 transfers. */
  ghost predicate Settles(sheet: Book, members: seq<UserId>, transfers: seq<Transfer>) {
    (forall u | u in members :: u in sheet && Sum(sheet[u]) + Flow(u, transfers) == 0.0) &&
    (forall t | t in transfers ::
      t.amount > 0.0 && t.from in members && t.to in members &&
      t.from in sheet && Sum(sheet[t.from]) < 0.0 && t.to in sheet && Sum(sheet[t.to]) > 0.0) &&
    |transfers| <= if |members| == 0 then 0 else |members| - 1
  }

  class Group {
    const id: GroupId
    const name: string
    const members: seq<UserId>
    /** the group's expenses, in insertion order, at most one per id */
    var expenses: seq<Expense>

    constructor(id: GroupId, name: string, members: seq<UserId>)
      ensures this.id == id && this.name == name && this.members == members
      ensures expenses == []
    {
      this.id := id;
      this.name := name;
      this.members := members;
      expenses := [];
    }

    /** Members are distinct, and every expense is paid by and split among members. */
    ghost predicate Sheetable()
      reads this, set e | e in expenses
    {
      Distinct(members) && Fits(EntriesOf(expenses), ZeroSheet(members).Keys)
    }

    ghost function Sheet(): Book
      requires Sheetable()
      reads this, set e | e in expenses
    {
      Replay(ZeroSheet(members), EntriesOf(expenses))
    }

    method AddExpense(expense: Expense)
      modifies this
      ensures expenses == Added(old(expenses), expense)
    {
      var k := IndexOf(expenses, expense.id);
      if k >= 0 {
        expenses := expenses[k := expense];
      } else {
        expenses := expenses + [expense];
      }
    }

    /** Rebuilds the sheet from the expenses; payments are not part of it. */
    method GetBalanceSheet() returns (sheet: Book)
      requires Sheetable()
      ensures sheet == Sheet()
    {
      sheet := InitSheet(members);
      sheet := ReplayEntries(sheet, EntriesOf(expenses));
    }

    /** The transfers that settle the group's balance sheet. */
    method SimplifyDebts() returns (transfers: seq<Transfer>)
      requires Sheetable()
      ensures Settles(Sheet(), members, transfers)
    {
      var balanceSheet := GetBalanceSheet();
      SheetShape(members, EntriesOf(expenses));
      transfers := Simplify(balanceSheet, members);
    }
  }

  /** The first loop of getBalanceSheet for one member: a 0 entry for every other member. */
  method ZeroRow(members: seq<UserId>, memberId: UserId) returns (row: Row)
    ensures row == map v | v in members && v != memberId :: 0.0
  {
    row := map[];
    var y := 0;
    while y < |members|
      invariant 0 <= y <= |members|
      invariant row == map v | v in members[..y] && v != memberId :: 0.0
    {
      assert members[..y + 1] == members[..y] + [members[y]];
      if memberId != members[y] {
        row := row[members[y] := 0.0];
      }
      y := y + 1;
    }
    assert members[..y] == members;
  }

  /** The first loop of getBalanceSheet: a zero row per member. */
  method InitSheet(members: seq<UserId>) returns (sheet: Book)
    ensures sheet == ZeroSheet(members)
  {
    sheet := map[];
    var x := 0;
    while x < |members|
      invariant 0 <= x <= |members|
      invariant sheet == map u | u in members[..x] :: map v | v in members && v != u :: 0.0
    {
      var memberId := members[x];
      var row := ZeroRow(members, memberId);
      assert members[..x + 1] == members[..x] + [memberId];
      sheet := sheet[memberId := row];
      x := x + 1;
    }
    assert members[..x] == members;
  }

  /** The second loop of getBalanceSheet: every expense's splits, in order. */
  method ReplayEntries(book: Book, entries: seq<Entry>) returns (sheet: Book)
    requires Fits(entries, book.Keys)
    ensures sheet == Replay(book, entries)
  {
    sheet := book;
    var e := 0;
    while e < |entries|
      invariant 0 <= e <= |entries|
      invariant sheet == Replay(book, entries[..e])
    {
      assert entries[..e + 1][..e] == entries[..e];
      sheet := ChargeSheet(sheet, entries[e].payer, entries[e].splits);
      e := e + 1;
    }
    assert entries[..e] == entries;
  }

  /** simplifyDebts after the sheet is built: a net per member, sorted, then
      the two-pointer sweep. */
  method Simplify(sheet: Book, members: seq<UserId>) returns (transfers: seq<Transfer>)
    requires Distinct(members) && sheet.Keys == set u | u in members
    requires Total(sheet) == 0.0
    ensures Settles(sheet, members, transfers)
  {
    var netAmounts: seq<Position> := [];
    var x := 0;
    while x < |members|
      invariant 0 <= x <= |members| && |netAmounts| == x
      invariant forall k | 0 <= k < x :: netAmounts[k] == Position(members[k], Sum(sheet[members[k]]))
    {
      var netAmount := SumValues(sheet[members[x]]);
      netAmounts := netAmounts + [Position(members[x], netAmount)];
      x := x + 1;
    }
    NetsOfSheet(sheet, members, netAmounts);
    var sorted := SortByNet(netAmounts);
    SortedIsWindow(sorted);
    transfers := Sweep(sorted);
    PlanSettlesSheet(sheet, members, netAmounts, sorted);
  }

  /** The rows of the members after the first. */
  lemma TailKeys(sheet: Book, members: seq<UserId>)
    requires |members| > 0 && Distinct(members) && sheet.Keys == set u | u in members
    ensures (sheet - {members[0]}).Keys == set v | v in members[1..]
  {
    forall v | v in sheet - {members[0]} ensures v in members[1..] {
      var k :| 0 <= k < |members| && members[k] == v;
    }
  }

  /** The nets of a sheet's rows, one per member, add up to the sheet's total. */
  lemma {:induction false} NetsOfSheet(sheet: Book, members: seq<UserId>, nets: seq<Position>)
    requires Distinct(members) && sheet.Keys == set u | u in members
    requires |nets| == |members|
    requires forall k | 0 <= k < |nets| :: nets[k] == Position(members[k], Sum(sheet[members[k]]))
    ensures NetSum(nets) == Total(sheet)
    ensures DistinctUsers(nets)
    decreases |members|
  {
    if members == [] {
      assert RowSums(sheet) == map[];
    } else {
      var u := members[0];
      TailKeys(sheet, members);
      NetsOfSheet(sheet - {u}, members[1..], nets[1..]);
      SumRemove(RowSums(sheet), u);
      RowSumsRemove(sheet, u);
    }
  }

  /** The nets of a sheet's rows, one per member. */
  ghost predicate NetsOf(sheet: Book, members: seq<UserId>, nets: seq<Position>) {
    sheet.Keys == (set u | u in members) && |nets| == |members| &&
    forall k | 0 <= k < |nets| :: nets[k] == Position(members[k], Sum(sheet[members[k]]))
  }

  /** Every sorted position is a member with its net. */
  lemma SortedPosition(sheet: Book, members: seq<UserId>, nets: seq<Position>, sorted: seq<Position>, k: int)
    requires NetsOf(sheet, members, nets) && multiset(sorted) == multiset(nets) && 0 <= k < |sorted|
    ensures sorted[k].user in members && sorted[k].user in sheet && sorted[k].net == Sum(sheet[sorted[k].user])
  {
    assert sorted[k] in multiset(nets);
    var x :| 0 <= x < |nets| && nets[x] == sorted[k];
  }

  /** Every member has its net among the sorted positions. */
  lemma MemberPosition(sheet: Book, members: seq<UserId>, nets: seq<Position>, sorted: seq<Position>, u: UserId)
    requires NetsOf(sheet, members, nets) && multiset(sorted) == multiset(nets) && u in members
    ensures exists k | 0 <= k < |sorted| :: sorted[k] == Position(u, Sum(sheet[u]))
  {
    var x :| 0 <= x < |members| && members[x] == u;
    assert nets[x] in multiset(sorted);
    var k :| 0 <= k < |sorted| && sorted[k] == nets[x];
  }

  lemma SettlesBalances(sheet: Book, members: seq<UserId>, nets: seq<Position>, sorted: seq<Position>, plan: seq<Transfer>)
    requires NetsOf(sheet, members, nets) && multiset(sorted) == multiset(nets)
    requires forall k | 0 <= k < |sorted| :: sorted[k].net + Flow(sorted[k].user, plan) == 0.0
    ensures forall u | u in members :: u in sheet && Sum(sheet[u]) + Flow(u, plan) == 0.0
  {
    forall u | u in members ensures u in sheet && Sum(sheet[u]) + Flow(u, plan) == 0.0 {
      MemberPosition(sheet, members, nets, sorted, u);
    }
  }

  lemma SettlesDirections(sheet: Book, members: seq<UserId>, nets: seq<Position>, sorted: seq<Position>, plan: seq<Transfer>)
    requires NetsOf(sheet, members, nets) && multiset(sorted) == multiset(nets)
    requires forall t | t in plan :: t.amount > 0.0 && t.from in Debtors(sorted) && t.to in Creditors(sorted)
    ensures forall t | t in plan ::
      t.amount > 0.0 && t.from in members && t.to in members &&
      t.from in sheet && Sum(sheet[t.from]) < 0.0 && t.to in sheet && Sum(sheet[t.to]) > 0.0
  {
    forall t | t in plan ensures t.from in members && t.to in members &&
      t.from in sheet && Sum(sheet[t.from]) < 0.0 && t.to in sheet && Sum(sheet[t.to]) > 0.0
    {
      var k :| 0 <= k < |sorted| && sorted[k].net < 0.0 && sorted[k].user == t.from;
      SortedPosition(sheet, members, nets, sorted, k);
      var l :| 0 <= l < |sorted| && sorted[l].net > 0.0 && sorted[l].user == t.to;
      SortedPosition(sheet, members, nets, sorted, l);
    }
  }

  /** The plan computed from the sorted nets settles the sheet. */
  lemma PlanSettlesSheet(sheet: Book, members: seq<UserId>, nets: seq<Position>, sorted: seq<Position>)
    requires NetsOf(sheet, members, nets)
    requires DistinctUsers(nets) && Rearranged(sorted, nets) && Window(sorted, 0, |sorted| - 1)
    ensures Settles(sheet, members, Plan(sorted, 0, |sorted| - 1))
  {
    var n := |sorted| - 1;
    PlanSettles(sorted, 0, n);
    PlanDirections(sorted, 0, n);
    PlanLength(sorted, 0, n);
    SettlesBalances(sheet, members, nets, sorted, Plan(sorted, 0, n));
    SettlesDirections(sheet, members, nets, sorted, Plan(sorted, 0, n));
  }
}
