/** How a search budget is split over neighbours, with Go's 64-bit conversions. */
module Budgets {

  type uint64 = x: int | 0 <= x < 0x1_0000_0000_0000_0000

  const INT_LIMIT: int := 0x8000_0000_0000_0000
  const UINT_LIMIT: int := 0x1_0000_0000_0000_0000

  function ToInt(u: uint64): int {
    if u < INT_LIMIT then u else u - UINT_LIMIT
  }

  function ToUint(i: int): uint64
    requires -INT_LIMIT <= i < INT_LIMIT
  {
    if i < 0 then i + UINT_LIMIT else i
  }

  /** Division of natural numbers, by repeated subtraction. */
  function Div(b: nat, n: nat): nat
    requires n > 0
  {
    if b < n then 0 else 1 + Div(b - n, n)
  }

  function Mod(b: nat, n: nat): nat
    requires n > 0
  {
    if b < n then b else Mod(b - n, n)
  }

  /** Go's division and remainder of a signed number, which round toward zero. */
  function Quotient(a: int, n: nat): int
    requires n > 0
  {
    if a >= 0 then Div(a, n) else 0 - Div(-a, n)
  }

  function Remainder(a: int, n: nat): int
    requires n > 0
  {
    if a >= 0 then Mod(a, n) else 0 - Mod(-a, n)
  }

  lemma {:induction false} OneTermMore(i: int, t: int)
    ensures i * t == (i - 1) * t + t
  {
  }

  lemma {:induction false} DivisionFacts(b: nat, n: nat)
    requires n > 0
    ensures b == n * Div(b, n) + Mod(b, n) && Mod(b, n) < n && Div(b, n) <= b
    ensures n >= 2 && Mod(b, n) > 0 ==> Div(b, n) + 1 <= b
    decreases b
  {
    if b >= n {
      DivisionFacts(b - n, n);
      OneTermMore(Div(b, n), n);
    }
  }

  ghost function Sum(shares: map<nat, uint64>): nat {
    if shares == map[] then 0
    else
      var k :| k in shares;
      shares[k] + Sum(shares - {k})
  }

  lemma {:induction false} SumWithout(shares: map<nat, uint64>, k: nat)
    requires k in shares
    ensures Sum(shares) == shares[k] + Sum(shares - {k})
    decreases |shares|
  {
    var x :| x in shares && Sum(shares) == shares[x] + Sum(shares - {x});
    if x != k {
      assert k in shares - {x};
      SumWithout(shares - {x}, k);
      SumWithout(shares - {k}, x);
      assert shares - {x} - {k} == shares - {k} - {x};
    }
  }

  lemma {:induction false} SumWith(shares: map<nat, uint64>, k: nat, v: uint64)
    requires k !in shares
    ensures Sum(shares[k := v]) == Sum(shares) + v
  {
    SumWithout(shares[k := v], k);
    assert shares[k := v] - {k} == shares;
  }

  /** Neighbours without a share count as having none. */
  function Share(shares: map<nat, uint64>, k: nat): uint64 {
    if k in shares then shares[k] else 0
  }

  /** The budget is split completely and as evenly as possible, and nobody gets an empty share. */
  ghost predicate FairSplit(budget: uint64, neighbors: set<nat>, shares: map<nat, uint64>) {
    && shares.Keys <= neighbors
    && (forall k :: k in shares ==> shares[k] > 0)
    && Sum(shares) == budget
    && (forall a, b :: a in neighbors && b in neighbors ==> Share(shares, a) <= Share(shares, b) + 1)
  }

  /** The shares of the first i neighbours: the first rem get the high share, the others the low one. */
  function FirstShares(i: nat, low: nat, high: nat, rem: int): nat {
    if i == 0 then 0 else FirstShares(i - 1, low, high, rem) + if i - 1 < rem then high else low
  }

  lemma {:induction false} FirstSharesOf(i: nat, low: nat, high: nat, rem: int)
    ensures high == low + 1 && rem >= 0 ==> FirstShares(i, low, high, rem) == i * low + if i < rem then i else rem
    ensures rem <= 0 ==> FirstShares(i, low, high, rem) == i * low
  {
    if i > 0 {
      FirstSharesOf(i - 1, low, high, rem);
      OneTermMore(i, low);
    }
  }

  lemma {:induction false} LargeProduct(n: nat, d: nat, b: nat)
    requires n >= 2 && n * d <= b <= INT_LIMIT && d <= b
    ensures n * (UINT_LIMIT - d) > UINT_LIMIT
  {
    assert n * (UINT_LIMIT - d) == n * UINT_LIMIT - n * d;
  }

  /** A larger budget turns negative, to -b: with two neighbours or more the shares miss it. */
  lemma {:induction false} SplitWrapped(b: nat, n: nat, d: nat, m: nat, high: nat)
    requires n > 0 && 0 < b <= INT_LIMIT && b == n * d + m && m < n && d <= b
    ensures FirstShares(n, ToUint(0 - d), high, 0 - m) == UINT_LIMIT - b <==> n == 1
  {
    FirstSharesOf(n, ToUint(0 - d), high, 0 - m);
    if n == 1 {
      assert d == b;
    } else if d == 0 {
      assert FirstShares(n, 0, high, 0 - m) == n * 0;
    } else {
      LargeProduct(n, d, b);
      assert ToUint(0 - d) == UINT_LIMIT - d;
    }
  }

  /** The shares that the code computes: the conversions are defined, and the whole budget is handed out
      exactly when it fits a signed integer or there is one neighbour. */
  lemma {:induction false} SplitTotal(budget: uint64, n: nat)
    requires n > 0
    ensures var q, rem := Quotient(ToInt(budget), n), Remainder(ToInt(budget), n);
            && -INT_LIMIT <= q && q + (if rem > 0 then 1 else 0) < INT_LIMIT && (budget < INT_LIMIT ==> q >= 0)
            && (FirstShares(n, ToUint(q), High(q, rem), rem) == budget <==> n == 1 || budget < INT_LIMIT)
  {
    var b: nat := if budget < INT_LIMIT then budget else UINT_LIMIT - budget;
    DivisionFacts(b, n);
    var d, m := Div(b, n), Mod(b, n);
    if budget < INT_LIMIT {
      FirstSharesOf(n, d, d + 1, m);
      FirstSharesOf(n, d, d, m);
    } else {
      SplitWrapped(b, n, d, m, ToUint(Quotient(ToInt(budget), n)));
    }
  }

  /** The share of the first neighbours; without a remainder nobody gets more than the others. */
  function High(q: int, rem: int): uint64
    requires -INT_LIMIT <= q && q + (if rem > 0 then 1 else 0) < INT_LIMIT
  {
    if rem > 0 then ToUint(q + 1) else ToUint(q)
  }

  function LowShare(budget: uint64, n: nat): uint64
    requires n > 0
  {
    SplitTotal(budget, n);
    ToUint(Quotient(ToInt(budget), n))
  }

  function HighShare(budget: uint64, n: nat): uint64
    requires n > 0
  {
    SplitTotal(budget, n);
    High(Quotient(ToInt(budget), n), Remainder(ToInt(budget), n))
  }

  /** A split as the code makes it, for every budget: each neighbour has the low or the high share, as many
      have the high one as the remainder says, and shares of zero are left out. */
  ghost predicate GoSplit(budget: uint64, neighbors: set<nat>, shares: map<nat, uint64>)
    requires neighbors != {}
  {
    var n := |neighbors|;
    && shares.Keys <= neighbors
    && (forall k :: k in shares ==> shares[k] > 0)
    && (forall k :: k in neighbors ==>
          Share(shares, k) == LowShare(budget, n) || Share(shares, k) == HighShare(budget, n))
    && Sum(shares) == FirstShares(n, LowShare(budget, n), HighShare(budget, n), Remainder(ToInt(budget), n))
  }

  /** Such a split is complete exactly when the budget fits a signed integer or there is one neighbour; in
      the first case it is also fair. */
  lemma {:induction false} GoSplitFair(budget: uint64, neighbors: set<nat>, shares: map<nat, uint64>)
    requires neighbors != {} && GoSplit(budget, neighbors, shares)
    ensures Sum(shares) == budget <==> |neighbors| == 1 || budget < INT_LIMIT
    ensures budget < INT_LIMIT ==> FairSplit(budget, neighbors, shares)
  {
    SplitTotal(budget, |neighbors|);
    hide Sum, FirstShares, Quotient, Remainder;
  }

  method DistributeBudget(budget: uint64, neighbors: set<nat>) returns (shares: map<nat, uint64>)
    ensures neighbors == {} ==> shares == map[]
    ensures neighbors != {} ==> GoSplit(budget, neighbors, shares)
    ensures neighbors != {} && budget < INT_LIMIT ==> FairSplit(budget, neighbors, shares)
    ensures neighbors != {} ==> (Sum(shares) == budget <==> |neighbors| == 1 || budget < INT_LIMIT)
  {
    if |neighbors| == 0 {
      return map[];
    }
    var qtn := Quotient(ToInt(budget), |neighbors|);
    var rem := Remainder(ToInt(budget), |neighbors|);
    SplitTotal(budget, |neighbors|);
    hide Sum, FirstShares;
    var budgetMap := GiveShares(neighbors, qtn, rem, ToUint(qtn), High(qtn, rem));
    shares := NonZero(budgetMap);
    GoSplitFair(budget, neighbors, shares);
  }

  /** The first loop: the first neighbours, in arbitrary order, get one unit more than the others. */
  method GiveShares(neighbors: set<nat>, qtn: int, rem: int, ghost low: uint64, ghost high: uint64)
    returns (budgetMap: map<nat, uint64>)
    requires -INT_LIMIT <= qtn && qtn + (if rem > 0 then 1 else 0) < INT_LIMIT
    requires low == ToUint(qtn) && high == High(qtn, rem)
    ensures budgetMap.Keys == neighbors && Sum(budgetMap) == FirstShares(|neighbors|, low, high, rem)
    ensures forall k :: k in budgetMap ==> budgetMap[k] == low || budgetMap[k] == high
  {
    budgetMap := map[];
    var i := 0;
    var left := neighbors;
    while left != {}
      invariant left <= neighbors && budgetMap.Keys == neighbors - left && i + |left| == |neighbors|
      invariant Sum(budgetMap) == FirstShares(i, low, high, rem)
      invariant forall k :: k in budgetMap ==> budgetMap[k] == low || budgetMap[k] == high
    {
      var neighbor :| neighbor in left;
      var neighborBudget := qtn;
      if i < rem {
        neighborBudget := neighborBudget + 1;
      }
      var share := ToUint(neighborBudget);
      assert share == if i < rem then high else low;
      SumWith(budgetMap, neighbor, share);
      budgetMap := budgetMap[neighbor := share];
      i := i + 1;
      left := left - {neighbor};
    }
  }

  /** Keeps only the neighbours with a non-zero budget. */
  method NonZero(budgetMap: map<nat, uint64>) returns (nonZero: map<nat, uint64>)
    ensures forall k :: k in nonZero <==> k in budgetMap && budgetMap[k] > 0
    ensures forall k :: k in nonZero ==> nonZero[k] == budgetMap[k]
    ensures Sum(nonZero) == Sum(budgetMap)
  {
    nonZero := map[];
    var left := budgetMap;
    while left != map[]
      invariant forall k :: k in left ==> k in budgetMap && left[k] == budgetMap[k]
      invariant forall k :: k in nonZero <==> k in budgetMap && k !in left && budgetMap[k] > 0
      invariant forall k :: k in nonZero ==> nonZero[k] == budgetMap[k]
      invariant Sum(nonZero) + Sum(left) == Sum(budgetMap)
      decreases |left|
    {
      var neighbor :| neighbor in left;
      SumWithout(left, neighbor);
      if left[neighbor] > 0 {
        SumWith(nonZero, neighbor, left[neighbor]);
        nonZero := nonZero[neighbor := left[neighbor]];
      }
      left := left - {neighbor};
    }
  }
}
