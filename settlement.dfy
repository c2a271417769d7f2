/** Debt simplification (Group.simplifyDebts in splitwise/splitwiseLLD.js):
    net positions sorted ascending, then a greedy two-pointer sweep that pairs
    the most indebted user with the most owed one. */
module Settlement {
  import opened Common
  import opened Ledger

  /** One `[userId, netAmount]` pair of the `netAmounts` array. */
  datatype Position = Position(user: UserId, net: real)

  /** One `{from, to, amount}` entry of the simplified debts. */
  datatype Transfer = Transfer(from: UserId, to: UserId, amount: real)

  /** Sum of the nets. */
  function NetSum(a: seq<Position>): real {
    if a == [] then 0.0 else a[0].net + NetSum(a[1..])
  }

  predicate SortedByNet(a: seq<Position>) {
    forall x, y | 0 <= x < y < |a| :: a[x].net <= a[y].net
  }

  predicate DistinctUsers(a: seq<Position>) {
    forall x, y | 0 <= x < y < |a| :: a[x].user != a[y].user
  }

  /** Users whose net is negative (they owe) and positive (they are owed). */
  function Debtors(a: seq<Position>): set<UserId> {
    set k | 0 <= k < |a| && a[k].net < 0.0 :: a[k].user
  }

  function Creditors(a: seq<Position>): set<UserId> {
    set k | 0 <= k < |a| && a[k].net > 0.0 :: a[k].user
  }

  /** What u pays minus what u receives. Applying the transfers as payments
      raises u's net by this much. */
  function Flow(u: UserId, ts: seq<Transfer>): real {
    if ts == [] then 0.0
    else
      (if ts[0].from == u then ts[0].amount else 0.0) -
      (if ts[0].to == u then ts[0].amount else 0.0) +
      Flow(u, ts[1..])
  }

  lemma {:induction false} FlowAppend(u: UserId, s: seq<Transfer>, t: seq<Transfer>)
    ensures Flow(u, s + t) == Flow(u, s) + Flow(u, t)
  {
    if s != [] {
      assert (s + t)[1..] == s[1..] + t;
      FlowAppend(u, s[1..], t);
    } else {
      assert s + t == t;
    }
  }

  lemma {:induction false} NetSumUpdate(a: seq<Position>, k: nat, p: Position)
    requires k < |a|
    ensures NetSum(a[k := p]) == NetSum(a) - a[k].net + p.net
  {
    if k > 0 {
      assert a[k := p][1..] == a[1..][k - 1 := p];
      NetSumUpdate(a[1..], k - 1, p);
    } else {
      assert a[k := p][1..] == a[1..];
    }
  }

  lemma {:induction false} NetSumPositive(a: seq<Position>, m: nat)
    requires forall k | 0 <= k < |a| :: a[k].net >= 0.0
    requires m < |a| && a[m].net > 0.0
    ensures NetSum(a) > 0.0
  {
    if m > 0 {
      NetSumPositive(a[1..], m - 1);
    } else {
      NetSumNonNegative(a[1..]);
    }
  }

  lemma {:induction false} NetSumNonNegative(a: seq<Position>)
    requires forall k | 0 <= k < |a| :: a[k].net >= 0.0
    ensures NetSum(a) >= 0.0
  {
    if a != [] {
      NetSumNonNegative(a[1..]);
    }
  }

  lemma {:induction false} NetSumNegative(a: seq<Position>, m: nat)
    requires forall k | 0 <= k < |a| :: a[k].net <= 0.0
    requires m < |a| && a[m].net < 0.0
    ensures NetSum(a) < 0.0
  {
    if m > 0 {
      NetSumNegative(a[1..], m - 1);
    } else {
      NetSumNonPositive(a[1..]);
    }
  }

  lemma {:induction false} NetSumNonPositive(a: seq<Position>)
    requires forall k | 0 <= k < |a| :: a[k].net <= 0.0
    ensures NetSum(a) <= 0.0
  {
    if a != [] {
      NetSumNonPositive(a[1..]);
    }
  }

  lemma {:induction false} NetSumSingle(a: seq<Position>, m: nat)
    requires m < |a|
    requires forall k | 0 <= k < |a| && k != m :: a[k].net == 0.0
    ensures NetSum(a) == a[m].net
  {
    if m > 0 {
      NetSumSingle(a[1..], m - 1);
    } else {
      NetSumZero(a[1..]);
    }
  }

  lemma {:induction false} NetSumZero(a: seq<Position>)
    requires forall k | 0 <= k < |a| :: a[k].net == 0.0
    ensures NetSum(a) == 0.0
  {
    if a != [] {
      NetSumZero(a[1..]);
    }
  }

  /** The state of the sweep between iterations: i and j delimit the window of
      unsettled positions, everything outside it is exactly settled, the nets
      still add up to zero, and no creditor stands before a debtor in the window. */
  ghost predicate Window(a: seq<Position>, i: int, j: int) {
    0 <= i <= j + 1 <= |a| &&
    (forall k | 0 <= k < |a| && (k < i || j < k) :: a[k].net == 0.0) &&
    NetSum(a) == 0.0 &&
    (forall x, y | i <= x < y <= j :: !(a[x].net > 0.0 && a[y].net < 0.0))
  }

  /** Inside a window the left end owes and the right end is owed. */
  lemma WindowEnds(a: seq<Position>, i: int, j: int)
    requires Window(a, i, j) && i < j
    ensures a[i].net <= 0.0 <= a[j].net
  {
    var left, right := a[i].net, a[j].net;
    if left > 0.0 {
      assert forall k | 0 <= k < |a| :: a[k].net >= 0.0 by {
        forall k | 0 <= k < |a| ensures a[k].net >= 0.0 {
          if i < k <= j {
            assert !(left > 0.0 && a[k].net < 0.0);
          }
        }
      }
      NetSumPositive(a, i);
    } else if right < 0.0 {
      assert forall k | 0 <= k < |a| :: a[k].net <= 0.0 by {
        forall k | 0 <= k < |a| ensures a[k].net <= 0.0 {
          if i <= k < j {
            assert !(a[k].net > 0.0 && right < 0.0);
          }
        }
      }
      NetSumNegative(a, j);
    }
  }

  /** `Math.min(Math.abs(debtor[1]), creditor[1])`. */
  function Amount(a: seq<Position>, i: int, j: int): real
    requires 0 <= i < j < |a|
  {
    Min(Abs(a[i].net), a[j].net)
  }

  /** `debtor[1] += amount; creditor[1] -= amount`. */
  function Settle(a: seq<Position>, i: int, j: int): (r: seq<Position>)
    requires 0 <= i < j < |a|
    ensures |r| == |a|
  {
    var amount := Amount(a, i, j);
    a[i := Position(a[i].user, a[i].net + amount)][j := Position(a[j].user, a[j].net - amount)]
  }

  function NextI(a: seq<Position>, i: int, j: int): int
    requires 0 <= i < j < |a|
  {
    if Settle(a, i, j)[i].net == 0.0 then i + 1 else i
  }

  function NextJ(a: seq<Position>, i: int, j: int): int
    requires 0 <= i < j < |a|
  {
    if Settle(a, i, j)[j].net == 0.0 then j - 1 else j
  }

  /** One iteration keeps the window invariant and narrows the window. */
  lemma StepKeepsWindow(a: seq<Position>, i: int, j: int)
    requires Window(a, i, j) && i < j
    ensures Window(Settle(a, i, j), NextI(a, i, j), NextJ(a, i, j))
    ensures NextJ(a, i, j) - NextI(a, i, j) < j - i
  {
    WindowEnds(a, i, j);
    var amount := Amount(a, i, j);
    var b := a[i := Position(a[i].user, a[i].net + amount)];
    var r := Settle(a, i, j);
    NetSumUpdate(a, i, Position(a[i].user, a[i].net + amount));
    NetSumUpdate(b, j, Position(a[j].user, a[j].net - amount));
    assert r[i].net <= 0.0 <= r[j].net;
    var i' := NextI(a, i, j);
    var j' := NextJ(a, i, j);
    forall x, y | i' <= x < y <= j' ensures !(r[x].net > 0.0 && r[y].net < 0.0) {
      if x != i && y != j {
        assert !(a[x].net > 0.0 && a[y].net < 0.0);
      }
    }
  }

  /** The transfers the sweep emits from window (i, j) of `a`, one iteration
      of the `while (i < j)` loop per call. */
  function Plan(a: seq<Position>, i: int, j: int): seq<Transfer>
    requires Window(a, i, j)
    decreases j - i
  {
    if i >= j then []
    else
      StepKeepsWindow(a, i, j);
      var amount := Amount(a, i, j);
      (if amount > 0.0 then [Transfer(a[i].user, a[j].user, amount)] else []) +
      Plan(Settle(a, i, j), NextI(a, i, j), NextJ(a, i, j))
  }

  /** The transfer emitted by the iteration at window (i, j), if any. */
  function Emitted(a: seq<Position>, i: int, j: int): seq<Transfer>
    requires 0 <= i < j < |a|
  {
    if Amount(a, i, j) > 0.0 then [Transfer(a[i].user, a[j].user, Amount(a, i, j))] else []
  }

  lemma PlanUnfold(a: seq<Position>, i: int, j: int)
    requires Window(a, i, j) && i < j
    ensures Window(Settle(a, i, j), NextI(a, i, j), NextJ(a, i, j))
    ensures Plan(a, i, j) == Emitted(a, i, j) + Plan(Settle(a, i, j), NextI(a, i, j), NextJ(a, i, j))
    ensures NextJ(a, i, j) - NextI(a, i, j) < j - i
  {
    StepKeepsWindow(a, i, j);
  }

  /** An iteration moves amounts, never users. */
  lemma SettleKeepsUsers(a: seq<Position>, i: int, j: int)
    requires 0 <= i < j < |a|
    ensures forall k | 0 <= k < |a| :: Settle(a, i, j)[k].user == a[k].user
    ensures DistinctUsers(a) ==> DistinctUsers(Settle(a, i, j))
  {
  }

  /** The number of iterations of the loop. */
  ghost function Iterations(a: seq<Position>, i: int, j: int): nat
    requires Window(a, i, j)
    decreases j - i
  {
    if i >= j then 0
    else
      StepKeepsWindow(a, i, j);
      1 + Iterations(Settle(a, i, j), NextI(a, i, j), NextJ(a, i, j))
  }

  /** The loop runs at most j - i times and emits at most one transfer per run. */
  lemma {:induction false} PlanLength(a: seq<Position>, i: int, j: int)
    requires Window(a, i, j)
    ensures |Plan(a, i, j)| <= Iterations(a, i, j)
    ensures Iterations(a, i, j) <= if i < j then j - i else 0
    decreases j - i
  {
    if i < j {
      StepKeepsWindow(a, i, j);
      PlanLength(Settle(a, i, j), NextI(a, i, j), NextJ(a, i, j));
    }
  }

  /** The emitted transfer goes from a debtor to a creditor. */
  lemma EmittedDirection(a: seq<Position>, i: int, j: int)
    requires Window(a, i, j) && i < j
    ensures forall t | t in Emitted(a, i, j) ::
      t.amount > 0.0 && t.from in Debtors(a) && t.to in Creditors(a)
  {
    WindowEnds(a, i, j);
    if Amount(a, i, j) > 0.0 {
      assert a[i].user in Debtors(a) && a[j].user in Creditors(a);
    }
  }

  /** An iteration makes no one a debtor or a creditor who was not one before. */
  lemma SettleShrinks(a: seq<Position>, i: int, j: int)
    requires Window(a, i, j) && i < j
    ensures Debtors(Settle(a, i, j)) <= Debtors(a)
    ensures Creditors(Settle(a, i, j)) <= Creditors(a)
  {
    WindowEnds(a, i, j);
    var r := Settle(a, i, j);
    forall u | u in Debtors(r) ensures u in Debtors(a) {
      var k :| 0 <= k < |r| && r[k].net < 0.0 && r[k].user == u;
      assert a[k].net < 0.0 && a[k].user == u;
    }
    forall u | u in Creditors(r) ensures u in Creditors(a) {
      var k :| 0 <= k < |r| && r[k].net > 0.0 && r[k].user == u;
      assert a[k].net > 0.0 && a[k].user == u;
    }
  }

  /** Every transfer moves a positive amount from a user who owes to a user who is owed. */
  lemma {:induction false} PlanDirections(a: seq<Position>, i: int, j: int)
    requires Window(a, i, j)
    ensures forall t | t in Plan(a, i, j) ::
      t.amount > 0.0 && t.from in Debtors(a) && t.to in Creditors(a)
    decreases j - i
  {
    if i < j {
      PlanUnfold(a, i, j);
      PlanDirections(Settle(a, i, j), NextI(a, i, j), NextJ(a, i, j));
      SettleShrinks(a, i, j);
      EmittedDirection(a, i, j);
    }
  }

  /** One iteration changes each user's net by that user's flow in the transfer it emits. */
  lemma StepFlow(a: seq<Position>, i: int, j: int, k: int)
    requires Window(a, i, j) && i < j && DistinctUsers(a) && 0 <= k < |a|
    ensures Settle(a, i, j)[k].net == a[k].net + Flow(a[k].user, Emitted(a, i, j))
  {
    WindowEnds(a, i, j);
    var t := Transfer(a[i].user, a[j].user, Amount(a, i, j));
    if Amount(a, i, j) > 0.0 {
      assert Flow(a[k].user, [t]) ==
        (if t.from == a[k].user then t.amount else 0.0) - (if t.to == a[k].user then t.amount else 0.0) + Flow(a[k].user, []);
      if k == i {
        assert t.to != a[k].user;
      } else if k == j {
        assert t.from != a[k].user;
      } else {
        assert t.from != a[k].user && t.to != a[k].user;
      }
    } else {
      assert Amount(a, i, j) == 0.0;
    }
  }

  /** Applying the emitted transfers settles every position exactly. */
  lemma {:induction false} PlanSettles(a: seq<Position>, i: int, j: int)
    requires Window(a, i, j) && DistinctUsers(a)
    ensures forall k | 0 <= k < |a| :: a[k].net + Flow(a[k].user, Plan(a, i, j)) == 0.0
    decreases j - i
  {
    if i < j {
      PlanUnfold(a, i, j);
      var r := Settle(a, i, j);
      var first := Emitted(a, i, j);
      var rest := Plan(r, NextI(a, i, j), NextJ(a, i, j));
      SettleKeepsUsers(a, i, j);
      PlanSettles(r, NextI(a, i, j), NextJ(a, i, j));
      forall k | 0 <= k < |a| ensures a[k].net + Flow(a[k].user, Plan(a, i, j)) == 0.0 {
        FlowAppend(a[k].user, first, rest);
        StepFlow(a, i, j, k);
      }
    } else {
      forall k | 0 <= k < |a| ensures a[k].net == 0.0 {
        if i == j {
          NetSumSingle(a, i);
        }
      }
    }
  }

  /** A sorted list of positions whose nets add up to zero is a full window. */
  lemma SortedIsWindow(a: seq<Position>)
    requires SortedByNet(a) && NetSum(a) == 0.0
    ensures Window(a, 0, |a| - 1)
  {
  }

  /** The two in-place updates of one iteration compute `Settle`. */
  lemma SettleInPlace(a: seq<Position>, i: int, j: int, amount: real)
    requires 0 <= i < j < |a| && amount == Amount(a, i, j)
    ensures a[i := Position(a[i].user, a[i].net + amount)][j := Position(a[j].user, a[j].net - amount)] == Settle(a, i, j)
  {
  }

  lemma Regroup(previous: seq<Transfer>, first: seq<Transfer>, rest: seq<Transfer>)
    ensures (previous + first) + rest == previous + (first + rest)
  {
  }

  /** `b` holds the same positions as `a`, possibly in another order. */
  predicate Rearranged(b: seq<Position>, a: seq<Position>) {
    |b| == |a| && multiset(b) == multiset(a) && NetSum(b) == NetSum(a) &&
    (DistinctUsers(a) ==> DistinctUsers(b))
  }

  /** Exchanging two neighbouring positions rearranges them. */
  lemma SwapKeeps(a: seq<Position>, m: nat, original: seq<Position>)
    requires 0 < m < |a| && Rearranged(a, original)
    ensures Rearranged(a[m - 1 := a[m]][m := a[m - 1]], original)
  {
    var b := a[m - 1 := a[m]][m := a[m - 1]];
    NetSumUpdate(a, m - 1, a[m]);
    NetSumUpdate(a[m - 1 := a[m]], m, a[m - 1]);
    SwapDistinct(a, m);
    assert multiset(b) == multiset(a);
  }

  lemma SwapDistinct(a: seq<Position>, m: nat)
    requires 0 < m < |a|
    ensures DistinctUsers(a) ==> DistinctUsers(a[m - 1 := a[m]][m := a[m - 1]])
  {
    var b := a[m - 1 := a[m]][m := a[m - 1]];
    if DistinctUsers(a) {
      forall x, y | 0 <= x < y < |b| ensures b[x].user != b[y].user {
        var x' := if x == m - 1 then m else if x == m then m - 1 else x;
        var y' := if y == m - 1 then m else if y == m then m - 1 else y;
        assert b[x] == a[x'] && b[y] == a[y'] && x' != y';
      }
    }
  }

  /** One pass of the insertion sort: position k moves left past every
      strictly larger net, after which the first k + 1 positions are sorted. */
  method Insert(a: seq<Position>, k: nat, ghost original: seq<Position>) returns (b: seq<Position>)
    requires k < |a| && Rearranged(a, original)
    requires forall x, y | 0 <= x < y < k :: a[x].net <= a[y].net
    ensures Rearranged(b, original)
    ensures forall x, y | 0 <= x < y <= k :: b[x].net <= b[y].net
  {
    b := a;
    var m := k;
    while m > 0 && b[m - 1].net > b[m].net
      invariant 0 <= m <= k && Rearranged(b, original)
      invariant forall x, y | 0 <= x < y <= k && x != m && y != m :: b[x].net <= b[y].net
      invariant forall y | m < y <= k :: b[m].net < b[y].net
    {
      SwapKeeps(b, m, original);
      b := b[m - 1 := b[m]][m := b[m - 1]];
      m := m - 1;
    }
  }

  /** `netAmounts.sort((a, b) => a[1] - b[1])`, as an insertion sort that moves
      a position left only past strictly larger nets, so equal nets keep their order. */
  method SortByNet(positions: seq<Position>) returns (sorted: seq<Position>)
    ensures SortedByNet(sorted) && Rearranged(sorted, positions)
  {
    sorted := positions;
    var k := 0;
    while k < |sorted|
      invariant 0 <= k <= |sorted| && Rearranged(sorted, positions)
      invariant forall x, y | 0 <= x < y < k :: sorted[x].net <= sorted[y].net
    {
      sorted := Insert(sorted, k, positions);
      k := k + 1;
    }
  }

  /** The sweep: `while (i < j)` over the sorted positions. It emits exactly
      Plan, so PlanSettles, PlanDirections and PlanLength hold of its result. */
  method Sweep(positions: seq<Position>) returns (transfers: seq<Transfer>)
    requires Window(positions, 0, |positions| - 1)
    ensures transfers == Plan(positions, 0, |positions| - 1)
  {
    var a := positions;
    var i := 0;
    var j := |positions| - 1;
    transfers := [];
    while i < j
      invariant Window(a, i, j)
      invariant transfers + Plan(a, i, j) == Plan(positions, 0, |positions| - 1)
      decreases j - i
    {
      PlanUnfold(a, i, j);
      ghost var before, previous := a, transfers;
      var amount := Min(Abs(a[i].net), a[j].net);
      ghost var first := Emitted(a, i, j);
      if amount > 0.0 {
        transfers := transfers + [Transfer(a[i].user, a[j].user, amount)];
      }
      assert transfers == previous + first;
      SettleInPlace(a, i, j, amount);
      a := a[i := Position(a[i].user, a[i].net + amount)];
      a := a[j := Position(a[j].user, a[j].net - amount)];
      ghost var i0, j0 := i, j;
      if a[i].net == 0.0 {
        i := i + 1;
      }
      if a[j].net == 0.0 {
        j := j - 1;
      }
      assert i == NextI(before, i0, j0) && j == NextJ(before, i0, j0);
      Regroup(previous, first, Plan(a, i, j));
    }
  }

  /** Recording every transfer as a (corrected) payment, in order. */
  function PayAll(book: Book, ts: seq<Transfer>): Book
    requires forall t | t in ts :: t.from in book && t.to in book
    decreases |ts|
  {
    if ts == [] then book
    else
      PairSums(book, ts[0].from, ts[0].to, ts[0].amount);
      PayAll(Pay(book, ts[0].from, ts[0].to, ts[0].amount), ts[1..])
  }

  /** Recording the transfers changes each user's total balance by that user's flow. */
  lemma {:induction false} PayAllSums(book: Book, ts: seq<Transfer>)
    requires forall t | t in ts :: t.from in book && t.to in book
    ensures PayAll(book, ts).Keys == book.Keys
    ensures forall u | u in book :: Sum(PayAll(book, ts)[u]) == Sum(book[u]) + Flow(u, ts)
    decreases |ts|
  {
    if ts != [] {
      var t := ts[0];
      PairSums(book, t.from, t.to, t.amount);
      PayAllSums(Pay(book, t.from, t.to, t.amount), ts[1..]);
    }
  }

  /** A is owed 40, B is owed 10 and C owes 50, already sorted by net. */
  function ThreeWay(): seq<Position> {
    [Position("C", -50.0), Position("B", 10.0), Position("A", 40.0)]
  }

  lemma ThreeWayWindow()
    ensures Window(ThreeWay(), 0, 2)
  {
    var a := ThreeWay();
    assert NetSum(a[2..]) == 40.0 by { assert a[2..][1..] == []; }
    assert a[1..][1..] == a[2..];
  }

  /** Sorted by net, C pays A 40 and then B 10. */
  lemma ThreeWayExample()
    ensures Window(ThreeWay(), 0, 2)
    ensures Plan(ThreeWay(), 0, 2) == [Transfer("C", "A", 40.0), Transfer("C", "B", 10.0)]
  {
    var a := ThreeWay();
    ThreeWayWindow();
    PlanUnfold(a, 0, 2);
    var b := Settle(a, 0, 2);
    assert b == [Position("C", -10.0), Position("B", 10.0), Position("A", 0.0)];
    assert NextI(a, 0, 2) == 0 && NextJ(a, 0, 2) == 1;
    PlanUnfold(b, 0, 1);
    assert NextI(b, 0, 1) == 1 && NextJ(b, 0, 1) == 0;
  }
}
