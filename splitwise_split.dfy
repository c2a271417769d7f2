/** How an expense is split among its participants (Expense.distribute and the
    four distribute* methods of splitwise/splitwiseLLD.js). Amounts are exact
    reals; the source's 0.01 validation tolerance is kept as `Tolerance`. */
module Splits {
  import opened Common
  import opened Ledger

  type ExpenseId = nat

  /** The largest difference the EXACT and PERCENTAGE rules still accept. */
  const Tolerance: real := 0.01

  /** The expense type strings the source switches on; any other string is invalid. */
  datatype ExpenseType = Equal | Exact | Percentage | Shares | Invalid(name: string)

  /** The optional second argument of distribute: a Map of exact amounts, an
      array of percentages or share weights, or null. */
  datatype Distribution = NoDistribution | Amounts(amounts: map<UserId, real>) | Weights(weights: seq<real>)

  /** Why distribute throws. */
  datatype SplitError =
    | InvalidExpenseType      // the default branch of the switch
    | MissingDistribution     // null (or a distribution of the wrong shape) where one is needed
    | ExactSumMismatch        // the exact amounts do not add up to the expense amount
    | PercentageSumMismatch   // the percentages do not add up to 100
    | NonFiniteSplit          // not thrown: a share would be NaN or an infinity

  predicate Distinct<T(==)>(s: seq<T>) {
    forall i, j | 0 <= i < j < |s| :: s[i] != s[j]
  }

  /** Left-to-right sum, as `reduce((sum, x) => sum + x, 0)` computes it. */
  function SeqSum(s: seq<real>): real {
    if s == [] then 0.0 else SeqSum(s[..|s| - 1]) + s[|s| - 1]
  }

  /** The entries distributeEqually writes: every participant gets amount / |participants|. */
  function EqualShares(amount: real, participants: seq<UserId>): (m: map<UserId, real>)
    ensures m.Keys == set p | p in participants
    ensures forall p | p in m :: m[p] * (|participants| as real) == amount
  {
    if |participants| == 0 then map[]
    else map p | p in participants :: amount / (|participants| as real)
  }

  /** participants[i] is given values[i], left to right; a repeated
      participant keeps its last value. */
  function Assign(participants: seq<UserId>, values: seq<real>): (m: map<UserId, real>)
    requires |values| >= |participants|
    ensures m.Keys == set p | p in participants
    ensures forall i {:trigger LastAt(participants, i)} | 0 <= i < |participants| && LastAt(participants, i) ::
      m[participants[i]] == values[i]
  {
    if |participants| == 0 then map[]
    else
      var n := |participants| - 1;
      var m := Assign(participants[..n], values)[participants[n] := values[n]];
      assert forall i | 0 <= i < n && LastAt(participants, i) :: LastAt(participants[..n], i);
      m
  }

  /** No later position of `s` holds the participant at position i. */
  predicate LastAt(s: seq<UserId>, i: nat)
    requires i < |s|
  {
    forall j | i < j < |s| :: s[j] != s[i]
  }

  /** Every weight multiplied by the same factor. */
  function Scaled(factor: real, weights: seq<real>): (r: seq<real>)
    ensures |r| == |weights|
    ensures forall k | 0 <= k < |weights| :: r[k] == Mul(weights[k], factor)
  {
    if weights == [] then []
    else
      var n := |weights| - 1;
      Scaled(factor, weights[..n]) + [Mul(weights[n], factor)]
  }

  /** The entries written by distributeByPercentage (denominator 100) and
      distributeByShares (denominator the sum of all shares): participant i gets
      weights[i] * (amount / denominator), which in exact arithmetic is the
      source's amount * weights[i] / denominator. */
  function Proportional(amount: real, participants: seq<UserId>, weights: seq<real>, denominator: real): (m: map<UserId, real>)
    requires |weights| >= |participants| && denominator != 0.0
  {
    Assign(participants, Scaled(Div(amount, denominator), weights))
  }

  /** How many participants a proportional split gives a finite share: the
      source reads `weights[index]` for every participant, which is undefined
      past the end of the list, and divides by the denominator, so a zero
      denominator makes every share NaN or an infinity. */
  function FiniteCount(participants: seq<UserId>, weights: seq<real>, denominator: real): (k: nat)
    ensures k <= |participants| && k <= |weights|
    ensures k == |participants| <==> |weights| >= |participants| && (denominator != 0.0 || participants == [])
  {
    if denominator == 0.0 then 0
    else if |weights| < |participants| then |weights|
    else |participants|
  }

  /** The entries a proportional split writes that exact reals can hold: the
      shares of the participants before the first one whose share is not finite. */
  function FiniteShares(amount: real, participants: seq<UserId>, weights: seq<real>, denominator: real): map<UserId, real> {
    var k := FiniteCount(participants, weights, denominator);
    if k == 0 then map[] else Proportional(amount, participants[..k], weights, denominator)
  }

  /** The entries distribute writes into `splits`, whether or not it then
      throws; where the source writes NaN or an infinity the model writes
      nothing and stops. */
  function Written(expenseType: ExpenseType, amount: real, participants: seq<UserId>, distribution: Distribution): map<UserId, real> {
    match expenseType
    case Equal => EqualShares(amount, participants)
    case Exact => if distribution.Amounts? then distribution.amounts else map[]
    case Percentage =>
      if distribution.Weights? then FiniteShares(amount, participants, distribution.weights, 100.0) else map[]
    case Shares =>
      if distribution.Weights? then FiniteShares(amount, participants, distribution.weights, SeqSum(distribution.weights)) else map[]
    case Invalid(_) => map[]
  }

  /** The error distribute throws, if any, or NonFiniteSplit where the source
      would go on with a NaN or infinite share:
      - EXACT: iterating a missing Map throws;
      - PERCENTAGE: with no participants nothing is read and the total of 0
        fails the check; otherwise indexing a missing list throws, and a Map or
        a list shorter than the participants yields an undefined percentage;
      - SHARES: `reduce` on anything but a list throws, and a short list or a
        zero total yields a share that is not finite. */
  ghost function Failure(expenseType: ExpenseType, amount: real, participants: seq<UserId>, distribution: Distribution): Option<SplitError> {
    match expenseType
    case Equal => None
    case Exact =>
      if !distribution.Amounts? then Some(MissingDistribution)
      else if Abs(Sum(distribution.amounts) - amount) > Tolerance then Some(ExactSumMismatch)
      else None
    case Percentage =>
      if participants == [] then Some(PercentageSumMismatch)
      else if distribution.NoDistribution? then Some(MissingDistribution)
      else if distribution.Amounts? || |distribution.weights| < |participants| then Some(NonFiniteSplit)
      else if Abs(SeqSum(distribution.weights[..|participants|]) - 100.0) > Tolerance then Some(PercentageSumMismatch)
      else None
    case Shares =>
      if !distribution.Weights? then Some(MissingDistribution)
      else if FiniteCount(participants, distribution.weights, SeqSum(distribution.weights)) < |participants| then Some(NonFiniteSplit)
      else None
    case Invalid(_) => Some(InvalidExpenseType)
  }

  lemma {:induction false} DistinctCard(s: seq<UserId>)
    requires Distinct(s)
    ensures |set p | p in s| == |s|
  {
    if s != [] {
      var n := |s| - 1;
      DistinctCard(s[..n]);
      assert (set p | p in s) == (set p | p in s[..n]) + {s[n]};
      assert s[n] !in (set p | p in s[..n]);
    }
  }

  /** An equal split among distinct participants adds up to the amount. */
  lemma EqualSharesSum(amount: real, participants: seq<UserId>)
    requires |participants| > 0 && Distinct(participants)
    ensures Sum(EqualShares(amount, participants)) == amount
  {
    var m := EqualShares(amount, participants);
    var n := |participants| as real;
    DistinctCard(participants);
    assert |m| == |m.Keys|;
    ConstantSum(m, amount / n);
    ScaleIsProduct(|participants|, amount / n);
    assert Mul(n, amount / n) == amount;
  }

  lemma Cancel(n: real, a: real)
    requires n != 0.0
    ensures Mul(n, Div(a, n)) == a
  {
  }

  /** Distinct participants' values add up to the sum of the values used. */
  lemma {:induction false} AssignSum(participants: seq<UserId>, values: seq<real>)
    requires |values| >= |participants| && Distinct(participants)
    ensures Sum(Assign(participants, values)) == SeqSum(values[..|participants|])
  {
    var k := |participants|;
    if k > 0 {
      var n := k - 1;
      var prev := Assign(participants[..n], values);
      AssignSum(participants[..n], values);
      assert participants[n] !in prev;
      SumUpdate(prev, participants[n], values[n]);
      assert values[..k][..n] == values[..n];
    }
  }

  lemma Distributes(s: real, w: real, t: real, f: real)
    requires t == s + w
    ensures Mul(t, f) == Mul(s, f) + Mul(w, f)
  {
  }

  /** The scaled weights add up to the scaled sum of the weights. */
  lemma {:induction false} ScaledSum(factor: real, weights: seq<real>)
    ensures SeqSum(Scaled(factor, weights)) == Mul(SeqSum(weights), factor)
  {
    if weights != [] {
      var n := |weights| - 1;
      ScaledSum(factor, weights[..n]);
      assert Scaled(factor, weights)[..n] == Scaled(factor, weights[..n]);
      Distributes(SeqSum(weights[..n]), weights[n], SeqSum(weights), factor);
    }
  }

  lemma {:induction false} ScaledPrefix(factor: real, weights: seq<real>, k: nat)
    requires k <= |weights|
    ensures Scaled(factor, weights)[..k] == Scaled(factor, weights[..k])
    decreases |weights|
  {
    if k < |weights| {
      var n := |weights| - 1;
      ScaledPrefix(factor, weights[..n], k);
      assert weights[..n][..k] == weights[..k];
      assert Scaled(factor, weights)[..n] == Scaled(factor, weights[..n]);
    } else {
      assert weights[..k] == weights;
    }
  }

  /** Distinct participants given scaled weights get, together, the scaled
      sum of their weights. */
  lemma ScaledAssignSum(factor: real, participants: seq<UserId>, weights: seq<real>)
    requires |weights| >= |participants| && Distinct(participants)
    ensures Sum(Assign(participants, Scaled(factor, weights))) == Mul(SeqSum(weights[..|participants|]), factor)
  {
    var k := |participants|;
    AssignSum(participants, Scaled(factor, weights));
    ScaledPrefix(factor, weights, k);
    ScaledSum(factor, weights[..k]);
  }

  /** A factor within the tolerance of zero scales any amount by at most the tolerance. */
  lemma SmallFactor(d: real, a: real)
    requires Abs(d) <= Tolerance
    ensures Abs(Mul(d, a)) <= Mul(Tolerance, Abs(a))
  {
    var m := Abs(a);
    MulMono(d, Tolerance, m);
    MulMono(-Tolerance, d, m);
    assert Mul(-Tolerance, m) == -Mul(Tolerance, m);
    assert Mul(d, a) == Mul(d, m) || Mul(d, a) == -Mul(d, m);
  }

  lemma PercentError(a: real, t: real, s: real)
    requires Abs(t - 100.0) <= Tolerance && s == Mul(t, Div(a, 100.0))
    ensures Abs(s - a) <= Abs(a) * Tolerance / 100.0
  {
    var d := t - 100.0;
    assert s - a == Mul(d, a) / 100.0;
    SmallFactor(d, a);
  }

  /** Percentages within the tolerance of 100 split off all of the amount
      but a hundredth of the tolerance. */
  lemma PercentageSplitClose(amount: real, participants: seq<UserId>, percentages: seq<real>)
    requires |percentages| >= |participants| && Distinct(participants)
    requires Abs(SeqSum(percentages[..|participants|]) - 100.0) <= Tolerance
    ensures Abs(Sum(Proportional(amount, participants, percentages, 100.0)) - amount) <= Abs(amount) * Tolerance / 100.0
  {
    var t := SeqSum(percentages[..|participants|]);
    var total := Sum(Proportional(amount, participants, percentages, 100.0));
    assert total == Mul(t, Div(amount, 100.0)) by {
      ScaledAssignSum(Div(amount, 100.0), participants, percentages);
    }
    PercentError(amount, t, total);
  }

  /** Shares, one per participant, split off exactly the amount. */
  lemma SharesSplitExact(amount: real, participants: seq<UserId>, shares: seq<real>)
    requires |shares| == |participants| && Distinct(participants) && SeqSum(shares) != 0.0
    ensures Sum(Proportional(amount, participants, shares, SeqSum(shares))) == amount
  {
    ScaledAssignSum(Div(amount, SeqSum(shares)), participants, shares);
    assert shares[..|participants|] == shares;
    Cancel(SeqSum(shares), amount);
  }

  /** When distribute does not throw, the entries it writes add up to the
      expense amount: exactly for EQUAL (at least one participant) and SHARES
      (one weight per participant), and up to the tolerance for EXACT and PERCENTAGE. */
  lemma SplitsAddUp(expenseType: ExpenseType, amount: real, participants: seq<UserId>, distribution: Distribution)
    requires Distinct(participants)
    requires Failure(expenseType, amount, participants, distribution) == None
    ensures expenseType.Equal? && |participants| > 0 ==>
      Sum(Written(expenseType, amount, participants, distribution)) == amount
    ensures expenseType.Exact? ==>
      Abs(Sum(Written(expenseType, amount, participants, distribution)) - amount) <= Tolerance
    ensures expenseType.Percentage? ==>
      Abs(Sum(Written(expenseType, amount, participants, distribution)) - amount) <= Abs(amount) * Tolerance / 100.0
    ensures expenseType.Shares? && |distribution.weights| == |participants| > 0 ==>
      Sum(Written(expenseType, amount, participants, distribution)) == amount
  {
    match expenseType {
      case Equal =>
        if |participants| > 0 {
          EqualSharesSum(amount, participants);
        }
      case Exact =>
      case Percentage =>
        if participants != [] {
          assert participants[..|participants|] == participants;
          PercentageSplitClose(amount, participants, distribution.weights);
        }
      case Shares =>
        if |distribution.weights| == |participants| > 0 {
          assert participants[..|participants|] == participants;
          SharesSplitExact(amount, participants, distribution.weights);
        }
      case Invalid(_) =>
    }
  }
}
