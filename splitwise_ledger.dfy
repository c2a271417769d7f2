/** The pairwise balance ledger of the expense-sharing service
    (splitwise/splitwiseLLD.js). Every user keeps a `balances` map from
    counterparty to amount: a positive entry `book[a][b]` means that b owes a.
    A `Book` is the collection of all users' balance maps; the same shape
    serves the group balance sheet, which is rebuilt from the group's expenses. */
module Ledger {
  import opened Common

  type UserId = string
  type Row = map<UserId, real>
  type Book = map<UserId, Row>

  /** User.updateBalanceWith: add `x` to the entry for `v`, a missing entry counting as 0. */
  function Bump(row: Row, v: UserId, x: real): (r: Row)
    ensures r.Keys == row.Keys + {v}
    ensures Get(r, v) == Get(row, v) + x
    ensures forall w | w in row && w != v :: r[w] == row[w]
  {
    row[v := Get(row, v) + x]
  }

  lemma SumBump(row: Row, v: UserId, x: real)
    ensures Sum(Bump(row, v, x)) == Sum(row) + x
  {
    SumUpdate(row, v, Get(row, v) + x);
  }

  /** Every user's counterparties are users of the book. */
  ghost predicate Closed(book: Book) {
    forall a | a in book :: book[a].Keys <= book.Keys
  }

  /** What a owes b is exactly what b is owed by a. */
  ghost predicate Antisymmetric(book: Book) {
    forall a, b | a in book && b in book :: Get(book[a], b) == -Get(book[b], a)
  }

  /** User.getTotalBalance for every user. */
  ghost function RowSums(book: Book): map<UserId, real> {
    map u | u in book :: Sum(book[u])
  }

  /** The sum over all users of their total balance. */
  ghost function Total(book: Book): real {
    Sum(RowSums(book))
  }

  lemma RowSumsRemove(book: Book, u: UserId)
    ensures RowSums(book) - {u} == RowSums(book - {u})
  {
  }

  lemma TotalUpdateRow(book: Book, a: UserId, r: Row)
    requires a in book
    ensures Total(book[a := r]) == Total(book) - Sum(book[a]) + Sum(r)
  {
    assert RowSums(book[a := r]) == RowSums(book)[a := Sum(r)];
    SumUpdate(RowSums(book), a, Sum(r));
  }

  /** The two calls made for one pair: `a.updateBalanceWith(b, x)` followed by
      `b.updateBalanceWith(a, -x)`. */
  function Pair(book: Book, a: UserId, b: UserId, x: real): Book
    requires a in book && b in book
  {
    var b1 := book[a := Bump(book[a], b, x)];
    b1[b := Bump(b1[b], a, -x)]
  }

  /** The two updateBalanceWith calls of a pair, one after the other. */
  lemma PairInSteps(book: Book, a: UserId, b: UserId, x: real, between: Book, after: Book)
    requires a in book && b in book
    requires between == book[a := Bump(book[a], b, x)]
    requires after == between[b := Bump(between[b], a, -x)]
    ensures after == Pair(book, a, b, x)
  {
  }

  /** A pair update does not change the sum over all users of their total balance. */
  lemma PairConserves(book: Book, a: UserId, b: UserId, x: real)
    requires a in book && b in book
    ensures Total(Pair(book, a, b, x)) == Total(book)
  {
    var b1 := book[a := Bump(book[a], b, x)];
    SumBump(book[a], b, x);
    TotalUpdateRow(book, a, Bump(book[a], b, x));
    SumBump(b1[b], a, -x);
    TotalUpdateRow(b1, b, Bump(b1[b], a, -x));
  }

  /** A pair update keeps the ledger closed and antisymmetric. */
  lemma PairKeepsShape(book: Book, a: UserId, b: UserId, x: real)
    requires a in book && b in book
    ensures Closed(book) ==> Closed(Pair(book, a, b, x))
    ensures Antisymmetric(book) ==> Antisymmetric(Pair(book, a, b, x))
  {
    if Antisymmetric(book) {
      if a == b {
        SelfPairAntisymmetric(book, a, x);
      } else {
        PairAntisymmetric(book, a, b, x);
      }
    }
  }

  lemma SelfPairAntisymmetric(book: Book, a: UserId, x: real)
    requires a in book && Antisymmetric(book)
    ensures Antisymmetric(Pair(book, a, a, x))
  {
    var r := Pair(book, a, a, x);
    assert r == book[a := Bump(Bump(book[a], a, x), a, -x)];
    assert Get(r[a], a) == Get(book[a], a);
    forall u, w | u in r && w in r
      ensures Get(r[u], w) == -Get(r[w], u)
    {
      assert Get(r[u], w) == Get(book[u], w) && Get(r[w], u) == Get(book[w], u);
    }
  }

  lemma PairAntisymmetric(book: Book, a: UserId, b: UserId, x: real)
    requires a in book && b in book && a != b && Antisymmetric(book)
    ensures Antisymmetric(Pair(book, a, b, x))
  {
    var r := Pair(book, a, b, x);
    PairRows(book, a, b, x);
    forall u, w | u in r && w in r
      ensures Get(r[u], w) == -Get(r[w], u)
    {
      if u == a && w == b {
      } else if u == b && w == a {
      } else {
        assert Get(r[u], w) == Get(book[u], w) && Get(r[w], u) == Get(book[w], u);
      }
    }
  }

  /** The payer's row after an expense: every other participant's share is added. */
  function AddAll(row: Row, shares: map<UserId, real>): (r: Row)
    ensures r.Keys == row.Keys + shares.Keys
    ensures forall v | v in r :: r[v] == Get(row, v) + Get(shares, v)
  {
    map v | v in row.Keys + shares.Keys :: Get(row, v) + Get(shares, v)
  }

  function ChargeRow(row: Row, u: UserId, payer: UserId, splits: map<UserId, real>): Row {
    if u == payer then AddAll(row, splits - {payer})
    else if u in splits then Bump(row, payer, -splits[u])
    else row
  }

  /** The effect of one distributed expense on the ledger (the loop of
      ExpenseManager.addExpenseToGroup, and the inner loop of Group.getBalanceSheet):
      for every participant p other than the payer, the payer's entry for p grows
      by p's share and p's entry for the payer shrinks by it; the payer's own
      share changes nothing. */
  function Charge(book: Book, payer: UserId, splits: map<UserId, real>): Book
    requires splits.Keys <= book.Keys
  {
    map u | u in book :: ChargeRow(book[u], u, payer, splits)
  }

  /** What one expense does to each pair of users. */
  lemma ChargeEffect(book: Book, payer: UserId, splits: map<UserId, real>)
    requires payer in book && splits.Keys <= book.Keys
    ensures Charge(book, payer, splits).Keys == book.Keys
    ensures forall p | p in splits && p != payer ::
      Get(Charge(book, payer, splits)[payer], p) == Get(book[payer], p) + splits[p] &&
      Get(Charge(book, payer, splits)[p], payer) == Get(book[p], payer) - splits[p]
    ensures forall u, w | u in book && u != payer && w != payer ::
      Get(Charge(book, payer, splits)[u], w) == Get(book[u], w)
    ensures forall w | w !in splits || w == payer ::
      Get(Charge(book, payer, splits)[payer], w) == Get(book[payer], w)
  {
  }

  lemma ChargeNothing(book: Book, payer: UserId)
    ensures Charge(book, payer, map[]) == book
  {
    forall u | u in book ensures ChargeRow(book[u], u, payer, map[]) == book[u] {
      if u == payer {
        assert AddAll(book[u], map[]) == book[u];
      }
    }
  }

  lemma AddAllStep(row: Row, shares: map<UserId, real>, k: UserId, v: real)
    requires k !in shares
    ensures AddAll(row, shares[k := v]) == Bump(AddAll(row, shares), k, v)
  {
    var l := AddAll(row, shares[k := v]);
    var r := Bump(AddAll(row, shares), k, v);
    assert l.Keys == r.Keys;
    forall w | w in l ensures l[w] == r[w] { }
  }

  lemma PairRows(book: Book, a: UserId, b: UserId, x: real)
    requires a in book && b in book && a != b
    ensures Pair(book, a, b, x).Keys == book.Keys
    ensures Pair(book, a, b, x)[a] == Bump(book[a], b, x)
    ensures Pair(book, a, b, x)[b] == Bump(book[b], a, -x)
    ensures forall u | u in book && u != a && u != b :: Pair(book, a, b, x)[u] == book[u]
  {
  }

  lemma ChargeStepRow(book: Book, payer: UserId, splits: map<UserId, real>, k: UserId, v: real, u: UserId)
    requires payer in book && splits.Keys <= book.Keys && k in book && k !in splits && k != payer && u in book
    ensures ChargeRow(book[u], u, payer, splits[k := v]) ==
      (if u == payer then Bump(ChargeRow(book[u], u, payer, splits), k, v)
       else if u == k then Bump(ChargeRow(book[u], u, payer, splits), payer, -v)
       else ChargeRow(book[u], u, payer, splits))
  {
    if u == payer {
      assert (splits[k := v]) - {payer} == (splits - {payer})[k := v];
      AddAllStep(book[payer], splits - {payer}, k, v);
    }
  }

  /** One more split entry, for someone other than the payer, is one more pair update. */
  lemma ChargeStep(book: Book, payer: UserId, splits: map<UserId, real>, k: UserId, v: real)
    requires payer in book && splits.Keys <= book.Keys && k in book && k !in splits && k != payer
    ensures Charge(book, payer, splits[k := v]) == Pair(Charge(book, payer, splits), payer, k, v)
  {
    var after := Charge(book, payer, splits[k := v]);
    var paired := Pair(Charge(book, payer, splits), payer, k, v);
    ChargeStepRows(book, payer, splits, k, v);
    assert after.Keys == paired.Keys;
  }

  lemma ChargeStepRows(book: Book, payer: UserId, splits: map<UserId, real>, k: UserId, v: real)
    requires payer in book && splits.Keys <= book.Keys && k in book && k !in splits && k != payer
    ensures Pair(Charge(book, payer, splits), payer, k, v).Keys == book.Keys
    ensures forall u | u in book :: Charge(book, payer, splits[k := v])[u] == Pair(Charge(book, payer, splits), payer, k, v)[u]
  {
    var before := Charge(book, payer, splits);
    PairRows(before, payer, k, v);
    forall u | u in book ensures Charge(book, payer, splits[k := v])[u] == Pair(before, payer, k, v)[u] {
      ChargeStepRow(book, payer, splits, k, v, u);
    }
  }

  /** The payer's own share changes nothing. */
  lemma ChargeOwnShare(book: Book, payer: UserId, splits: map<UserId, real>, v: real)
    requires payer in book && splits.Keys <= book.Keys && payer !in splits
    ensures Charge(book, payer, splits[payer := v]) == Charge(book, payer, splits)
  {
    assert (splits[payer := v]) - {payer} == splits - {payer};
    var before := Charge(book, payer, splits);
    var after := Charge(book, payer, splits[payer := v]);
    forall u | u in book ensures after[u] == before[u] {
      if u == payer {
        assert after[u] == AddAll(book[u], splits - {payer});
      } else if u in splits {
        assert after[u] == Bump(book[u], payer, -splits[u]);
      } else {
        assert after[u] == book[u];
      }
    }
    assert after.Keys == before.Keys;
  }

  /** Visiting one more entry of the splits, in any order, charges it on top of
      the entries already visited. */
  lemma ChargeVisit(book: Book, payer: UserId, splits: map<UserId, real>, rest: map<UserId, real>, k: UserId)
    requires payer in book && splits.Keys <= book.Keys && k in rest && Submap(rest, splits)
    ensures Submap(rest - {k}, splits) && |rest - {k}| < |rest|
    ensures k != payer ==>
      Charge(book, payer, splits - (rest - {k}).Keys) == Pair(Charge(book, payer, splits - rest.Keys), payer, k, rest[k])
    ensures k == payer ==>
      Charge(book, payer, splits - (rest - {k}).Keys) == Charge(book, payer, splits - rest.Keys)
  {
    DoneStep(splits, rest, k);
    if k != payer {
      ChargeStep(book, payer, splits - rest.Keys, k, rest[k]);
    } else {
      ChargeOwnShare(book, payer, splits - rest.Keys, rest[k]);
    }
  }

  /** An expense keeps the ledger closed and antisymmetric, and the sum over
      all users of getTotalBalance is unchanged. */
  lemma {:induction false} ChargeKeepsInvariants(book: Book, payer: UserId, splits: map<UserId, real>)
    requires payer in book && splits.Keys <= book.Keys
    ensures Closed(book) ==> Closed(Charge(book, payer, splits))
    ensures Antisymmetric(book) ==> Antisymmetric(Charge(book, payer, splits))
    ensures Total(Charge(book, payer, splits)) == Total(book)
    decreases |splits|
  {
    if splits == map[] {
      ChargeNothing(book, payer);
    } else {
      var k :| k in splits;
      var rest := splits - {k};
      assert splits == rest[k := splits[k]];
      ChargeKeepsInvariants(book, payer, rest);
      if k == payer {
        ChargeOwnShare(book, payer, rest, splits[k]);
      } else {
        ChargeStep(book, payer, rest, k, splits[k]);
        PairConserves(Charge(book, payer, rest), payer, k, splits[k]);
        PairKeepsShape(Charge(book, payer, rest), payer, k, splits[k]);
      }
    }
  }

  /** Pair updates add `x` to a's total balance and take it from b's. */
  lemma PairSums(book: Book, a: UserId, b: UserId, x: real)
    requires a in book && b in book
    ensures Pair(book, a, b, x).Keys == book.Keys
    ensures forall u | u in book ::
      Sum(Pair(book, a, b, x)[u]) == Sum(book[u]) + (if u == a then x else 0.0) - (if u == b then x else 0.0)
  {
    var b1 := book[a := Bump(book[a], b, x)];
    SumBump(book[a], b, x);
    SumBump(b1[b], a, -x);
  }

  /** How much an expense changes u's total balance: the payer gains the other
      participants' shares, every other participant loses that participant's share. */
  ghost function ChargeDelta(u: UserId, payer: UserId, splits: map<UserId, real>): real {
    if u == payer then Sum(splits - {payer})
    else if u in splits then -splits[u]
    else 0.0
  }

  lemma {:induction false} ChargeSums(book: Book, payer: UserId, splits: map<UserId, real>)
    requires payer in book && splits.Keys <= book.Keys
    ensures forall u | u in book ::
      Sum(Charge(book, payer, splits)[u]) == Sum(book[u]) + ChargeDelta(u, payer, splits)
    decreases |splits|
  {
    if splits == map[] {
      ChargeNothing(book, payer);
      assert splits - {payer} == map[];
    } else {
      var k :| k in splits;
      var rest := splits - {k};
      Decompose(splits, k);
      ChargeSums(book, payer, rest);
      if k == payer {
        ChargeOwnShareSums(book, payer, rest, splits[k]);
      } else {
        ChargeStepSums(book, payer, rest, k, splits[k]);
      }
    }
  }

  lemma ChargeOwnShareSums(book: Book, payer: UserId, rest: map<UserId, real>, v: real)
    requires payer in book && rest.Keys <= book.Keys && payer !in rest
    requires forall u | u in book :: Sum(Charge(book, payer, rest)[u]) == Sum(book[u]) + ChargeDelta(u, payer, rest)
    ensures forall u | u in book ::
      Sum(Charge(book, payer, rest[payer := v])[u]) == Sum(book[u]) + ChargeDelta(u, payer, rest[payer := v])
  {
    ChargeOwnShare(book, payer, rest, v);
    RemoveOverwritten(rest, payer, v);
  }

  lemma ChargeStepSums(book: Book, payer: UserId, rest: map<UserId, real>, k: UserId, v: real)
    requires payer in book && rest.Keys <= book.Keys && k in book && k !in rest && k != payer
    requires forall u | u in book :: Sum(Charge(book, payer, rest)[u]) == Sum(book[u]) + ChargeDelta(u, payer, rest)
    ensures forall u | u in book ::
      Sum(Charge(book, payer, rest[k := v])[u]) == Sum(book[u]) + ChargeDelta(u, payer, rest[k := v])
  {
    var before := Charge(book, payer, rest);
    var after := Charge(book, payer, rest[k := v]);
    ChargeStep(book, payer, rest, k, v);
    PairSums(before, payer, k, v);
    forall u | u in book ensures Sum(after[u]) == Sum(book[u]) + ChargeDelta(u, payer, rest[k := v]) {
      if u == payer {
        RemoveUpdate(rest, k, v, payer);
        SumUpdate(rest - {payer}, k, v);
      } else if u == k {
        assert ChargeDelta(u, payer, rest[k := v]) == -v;
      } else {
        assert ChargeDelta(u, payer, rest[k := v]) == ChargeDelta(u, payer, rest);
      }
    }
  }

  /** ExpenseManager.createPayment as written: `fromUser.updateBalanceWith(toUserId, -amount)`
      followed by `toUser.updateBalanceWith(fromUserId, amount)`. */
  function PayAsWritten(book: Book, from: UserId, to: UserId, amount: real): Book
    requires from in book && to in book
  {
    Pair(book, from, to, -amount)
  }

  /** A payment recorded with the sign that settles debt: the payer's entry for
      the payee rises by the amount and the payee's entry for the payer falls by it. */
  function Pay(book: Book, from: UserId, to: UserId, amount: real): Book
    requires from in book && to in book
  {
    Pair(book, from, to, amount)
  }

  /** With the source's signs, what the payer owes the payee grows by the amount paid. */
  lemma PayAsWrittenGrowsDebt(book: Book, from: UserId, to: UserId, amount: real)
    requires from in book && to in book && from != to
    ensures Get(PayAsWritten(book, from, to, amount)[to], from) == Get(book[to], from) + amount
    ensures Get(PayAsWritten(book, from, to, amount)[from], to) == Get(book[from], to) - amount
  {
    PairRows(book, from, to, -amount);
  }

  /** Bob owes Alice 30 and pays her 50: as written, Alice is then owed 80. */
  lemma PayAsWrittenExample()
    ensures var book := map["alice" := map["bob" := 30.0], "bob" := map["alice" := -30.0]];
      PayAsWritten(book, "bob", "alice", 50.0)["alice"]["bob"] == 80.0 &&
      Pay(book, "bob", "alice", 50.0)["alice"]["bob"] == -20.0
  {
    var book := map["alice" := map["bob" := 30.0], "bob" := map["alice" := -30.0]];
    PairRows(book, "bob", "alice", -50.0);
    PairRows(book, "bob", "alice", 50.0);
  }

  /** A payment reduces what the payer owes the payee by the amount, raises the
      payer's total balance by it, lowers the payee's by it, and keeps the
      ledger closed, antisymmetric and balanced. */
  lemma PaySettlesDebt(book: Book, from: UserId, to: UserId, amount: real)
    requires from in book && to in book
    ensures from != to ==> Get(Pay(book, from, to, amount)[to], from) == Get(book[to], from) - amount
    ensures from != to ==> Get(Pay(book, from, to, amount)[from], to) == Get(book[from], to) + amount
    ensures from != to ==> Sum(Pay(book, from, to, amount)[from]) == Sum(book[from]) + amount
    ensures from != to ==> Sum(Pay(book, from, to, amount)[to]) == Sum(book[to]) - amount
    ensures Closed(book) ==> Closed(Pay(book, from, to, amount))
    ensures Antisymmetric(book) ==> Antisymmetric(Pay(book, from, to, amount))
    ensures Total(Pay(book, from, to, amount)) == Total(book)
  {
    if from != to {
      PairRows(book, from, to, amount);
    }
    PairSums(book, from, to, amount);
    PairKeepsShape(book, from, to, amount);
    PairConserves(book, from, to, amount);
  }
}
