/** `distribute_reward` of `src/network.rs`: integer shares by weight, then
    one token each to the heaviest winners until the remainder is spent. */
module Reward {
  import opened Words
  import opened Sequences
  import opened Model

  datatype Winner = Winner(id: ParticipantId, weight: u64)
  datatype Share = Share(id: ParticipantId, amount: u64)

  function NegWeight(w: Winner): int { -(w.weight as int) }

  function ShareOf(reward: u64, total: u64, w: Winner): Share
    requires total > 0
  {
    Share(w.id, FloorAmount(reward, total, w.weight))
  }

  function FloorAmount(reward: u64, total: u64, weight: u64): u64
    requires total > 0
  {
    DivAtMost(SatMul(reward, weight), total);
    SatMul(reward, weight) / total
  }

  lemma DivAtMost(n: nat, d: nat)
    requires d > 0
    ensures 0 <= n / d <= n
  {
    FloorBounds(n, d);
    AtLeastOneFold(n / d, d);
  }

  lemma AtLeastOneFold(x: nat, d: nat)
    requires d > 0
    ensures x <= x * d
  {}

  function FloorShares(reward: u64, total: u64, winners: seq<Winner>): (r: seq<Share>)
    requires total > 0
    ensures |r| == |winners|
    ensures forall i :: 0 <= i < |r| ==> r[i] == ShareOf(reward, total, winners[i])
  {
    if winners == [] then []
    else FloorShares(reward, total, winners[..|winners|-1]) + [ShareOf(reward, total, winners[|winners|-1])]
  }

  function WrappedSum(shares: seq<Share>): u64 {
    if shares == [] then 0 else Add(WrappedSum(shares[..|shares|-1]), shares[|shares|-1].amount)
  }

  function WrappedWeight(winners: seq<Winner>): u64 {
    if winners == [] then 0 else Add(WrappedWeight(winners[..|winners|-1]), winners[|winners|-1].weight)
  }

  /** First position from `k` on holding the id, or the length when there is
      none. */
  function PositionFrom(shares: seq<Share>, id: ParticipantId, k: nat): (r: nat)
    requires k <= |shares|
    ensures k <= r <= |shares|
    decreases |shares| - k
  {
    if k == |shares| || shares[k].id == id then k else PositionFrom(shares, id, k + 1)
  }

  function PositionOf(shares: seq<Share>, id: ParticipantId): (r: nat)
    ensures r <= |shares|
  {
    PositionFrom(shares, id, 0)
  }

  lemma {:induction false} PositionFromFirst(shares: seq<Share>, id: ParticipantId, k: nat)
    requires k <= |shares|
    ensures var r := PositionFrom(shares, id, k);
      && (r < |shares| ==> shares[r].id == id)
      && forall j :: k <= j < r ==> shares[j].id != id
    decreases |shares| - k
  {
    if k < |shares| && shares[k].id != id {
      PositionFromFirst(shares, id, k + 1);
    }
  }

  lemma PositionIsFirst(shares: seq<Share>, id: ParticipantId)
    ensures var r := PositionOf(shares, id);
      && (r < |shares| ==> shares[r].id == id)
      && forall j :: 0 <= j < r ==> shares[j].id != id
  {
    PositionFromFirst(shares, id, 0);
  }

  function Credit(shares: seq<Share>, k: nat): seq<Share>
    requires k < |shares|
  {
    shares[k := Share(shares[k].id, Add(shares[k].amount, 1))]
  }

  /** One token to each winner in turn, from the `j`-th on, while any
      remainder is left. */
  function SpendRemainder(shares: seq<Share>, order: seq<Winner>, j: nat, remainder: u64): (r: seq<Share>)
    requires j <= |order|
    ensures |r| == |shares|
    decreases |order| - j
  {
    if j == |order| || remainder == 0 then shares
    else
      var k := PositionOf(shares, order[j].id);
      if k == |shares| then SpendRemainder(shares, order, j + 1, remainder)
      else SpendRemainder(Credit(shares, k), order, j + 1, remainder - 1)
  }

  lemma {:induction false} SpendKeepsIds(shares: seq<Share>, order: seq<Winner>, j: nat, remainder: u64)
    requires j <= |order|
    ensures forall i :: 0 <= i < |shares| ==> SpendRemainder(shares, order, j, remainder)[i].id == shares[i].id
    decreases |order| - j
  {
    if j < |order| && remainder != 0 {
      var k := PositionOf(shares, order[j].id);
      if k == |shares| {
        SpendKeepsIds(shares, order, j + 1, remainder);
      } else {
        SpendKeepsIds(Credit(shares, k), order, j + 1, remainder - 1);
      }
    }
  }

  function Distribute(reward: u64, total: u64, winners: seq<Winner>): (r: seq<Share>)
    requires total > 0
    ensures |r| == |winners|
  {
    var shares := FloorShares(reward, total, winners);
    SpendRemainder(shares, SortBy(winners, NegWeight), 0, SatSub(reward, WrappedSum(shares)))
  }

  // ------------------------------------------------------------ the two sums

  function TotalWeight(winners: seq<Winner>): nat {
    if winners == [] then 0 else TotalWeight(winners[..|winners|-1]) + winners[|winners|-1].weight
  }

  function Paid(shares: seq<Share>): nat {
    if shares == [] then 0 else Paid(shares[..|shares|-1]) + shares[|shares|-1].amount
  }

  /** No product of reward and weight reaches the 64-bit limit. */
  ghost predicate Unsaturated(reward: u64, winners: seq<Winner>) {
    forall i :: 0 <= i < |winners| ==> reward * winners[i].weight < LIMIT
  }

  lemma {:induction false} WeightExact(winners: seq<Winner>)
    requires TotalWeight(winners) < LIMIT
    ensures WrappedWeight(winners) == TotalWeight(winners)
  {
    if winners != [] {
      WeightExact(winners[..|winners|-1]);
    }
  }

  lemma {:induction false} SumExact(shares: seq<Share>)
    requires Paid(shares) < LIMIT
    ensures WrappedSum(shares) == Paid(shares)
  {
    if shares != [] {
      SumExact(shares[..|shares|-1]);
    }
  }

  lemma FloorBounds(n: nat, d: nat)
    requires d > 0
    ensures (n / d) * d <= n < (n / d) * d + d
  {}

  lemma Distribute3(x: int, y: int, k: int)
    ensures (x + y) * k == x * k + y * k
  {}

  /** One more winner: `q` is its floor share of `reward * w`. */
  lemma ScaledStep(reward: nat, total: nat, before: nat, q: nat, weight: nat, w: nat, n: nat)
    requires before * total <= reward * weight
    requires q * total <= reward * w
    ensures (before + q) * total <= reward * (weight + w)
    ensures n > 0 && reward * weight < (before + n) * total && reward * w < q * total + total ==>
      reward * (weight + w) < (before + q + n + 1) * total
    ensures reward * w < q * total + total && before == 0 && weight == 0 ==>
      reward * (weight + w) < (before + q + 1) * total
  {
    assert (before + q) * total == before * total + q * total;
    assert reward * (weight + w) == reward * weight + reward * w;
    assert (before + q + n + 1) * total == (before + n) * total + q * total + total;
  }

  /** Scaled by the total, the floor shares lie between what is owed and what
      is owed less one token per winner. */
  lemma {:induction false} FloorSharesScaled(reward: u64, total: u64, winners: seq<Winner>)
    requires total > 0
    ensures Paid(FloorShares(reward, total, winners)) * total <= reward * TotalWeight(winners)
    ensures Unsaturated(reward, winners) && winners != [] ==>
      reward * TotalWeight(winners) < (Paid(FloorShares(reward, total, winners)) + |winners|) * total
  {
    if winners == [] {
      assert 0 * total == 0 && reward * 0 == 0;
    } else {
      var init, w := winners[..|winners|-1], winners[|winners|-1];
      FloorSharesScaled(reward, total, init);
      var s := FloorShares(reward, total, winners);
      assert s[..|s|-1] == FloorShares(reward, total, init);
      var before, q := Paid(s[..|s|-1]), s[|s|-1].amount;
      FloorOf(reward, w.weight, total);
      ScaledStep(reward, total, before, q, TotalWeight(init), w.weight, |init|);
      if Unsaturated(reward, winners) {
        assert forall i :: 0 <= i < |init| ==> init[i] == winners[i];
      }
    }
  }

  lemma FloorOf(reward: u64, w: u64, total: u64)
    requires total > 0
    ensures FloorAmount(reward, total, w) * total <= reward * w
    ensures reward * w < LIMIT ==> reward * w < FloorAmount(reward, total, w) * total + total
  {
    FloorBounds(SatMul(reward, w), total);
  }

  lemma CancelFactor(x: int, y: int, k: int)
    requires k > 0
    ensures x * k <= y * k ==> x <= y
    ensures x * k < y * k ==> x < y
  {
    if x > y { CancelHelper(x, y, k); }
    if x >= y { CancelHelper(x, y, k); }
  }

  lemma CancelHelper(x: int, y: int, k: int)
    requires k > 0 && x >= y
    ensures x * k >= y * k
    ensures x > y ==> x * k > y * k
  {
    Distribute3(y, x - y, k);
    ProductSign(x - y, k);
  }

  lemma ProductSign(d: int, k: int)
    requires k > 0 && d >= 0
    ensures d * k >= 0
    ensures d > 0 ==> d * k > 0
  {}

  /** The floor shares never exceed the reward, and unless a product
      saturates they fall short of it by less than one token per winner. */
  lemma {:induction false} FloorSharesBound(reward: u64, total: u64, winners: seq<Winner>)
    requires total > 0 && total == TotalWeight(winners)
    ensures Paid(FloorShares(reward, total, winners)) <= reward
    ensures Unsaturated(reward, winners) && winners != [] ==>
      reward < Paid(FloorShares(reward, total, winners)) + |winners|
  {
    FloorSharesScaled(reward, total, winners);
    var paid := Paid(FloorShares(reward, total, winners));
    CancelFactor(paid, reward, total);
    CancelFactor(reward, paid + |winners|, total);
  }

  // --------------------------------------------------- spending the remainder

  lemma {:induction false} PaidUpdate(shares: seq<Share>, k: nat, s: Share)
    requires k < |shares|
    ensures Paid(shares[k := s]) == Paid(shares) - shares[k].amount + s.amount
  {
    var n := |shares| - 1;
    var updated := shares[k := s];
    if k == n {
      assert updated[..n] == shares[..n];
    } else {
      assert updated[..n] == shares[..n][k := s];
      PaidUpdate(shares[..n], k, s);
    }
  }

  lemma {:induction false} PaidAtLeast(shares: seq<Share>, k: nat)
    requires k < |shares|
    ensures shares[k].amount <= Paid(shares)
  {
    if k < |shares| - 1 {
      PaidAtLeast(shares[..|shares|-1], k);
    }
  }

  /** Every listed winner has a share to add to. */
  ghost predicate Payable(shares: seq<Share>, order: seq<Winner>) {
    forall j :: 0 <= j < |order| ==> PositionOf(shares, order[j].id) < |shares|
  }

  lemma PositionSameIds(a: seq<Share>, b: seq<Share>, id: ParticipantId)
    requires |a| == |b| && forall i :: 0 <= i < |a| ==> a[i].id == b[i].id
    ensures PositionOf(a, id) == PositionOf(b, id)
  {
    PositionIsFirst(a, id);
    PositionIsFirst(b, id);
  }

  /** One step of the loop, and what it leaves true for the rest. */
  lemma OneToken(shares: seq<Share>, order: seq<Winner>, j: nat, remainder: u64) returns (next: seq<Share>, k: nat)
    requires j < |order| && remainder != 0 && Payable(shares, order)
    requires Paid(shares) + remainder < LIMIT
    ensures k < |shares| && k == PositionOf(shares, order[j].id)
    ensures shares[k].amount + 1 < LIMIT
    ensures next == shares[k := Share(shares[k].id, shares[k].amount + 1)]
    ensures SpendRemainder(shares, order, j, remainder) == SpendRemainder(next, order, j + 1, remainder - 1)
    ensures Paid(next) == Paid(shares) + 1
    ensures Payable(next, order)
  {
    k := PositionOf(shares, order[j].id);
    PaidAtLeast(shares, k);
    next := Credit(shares, k);
    PaidUpdate(shares, k, Share(shares[k].id, shares[k].amount + 1));
    forall x | 0 <= x < |order| ensures PositionOf(next, order[x].id) < |next| {
      PositionSameIds(shares, next, order[x].id);
    }
  }

  /** Each spent token adds exactly one to the total paid out. */
  lemma {:induction false} RemainderSpent(shares: seq<Share>, order: seq<Winner>, j: nat, remainder: u64)
    requires j <= |order|
    requires Paid(shares) + remainder < LIMIT && Payable(shares, order)
    ensures Paid(SpendRemainder(shares, order, j, remainder)) ==
      Paid(shares) + if remainder <= |order| - j then remainder else |order| - j
    decreases |order| - j
  {
    if j < |order| && remainder != 0 {
      var next, k := OneToken(shares, order, j, remainder);
      RemainderSpent(next, order, j + 1, remainder - 1);
    } else {
      assert SpendRemainder(shares, order, j, remainder) == shares;
    }
  }

  lemma {:induction false} EveryWinnerPayable(shares: seq<Share>, winners: seq<Winner>)
    requires |shares| == |winners|
    requires forall i :: 0 <= i < |shares| ==> shares[i].id == winners[i].id
    ensures Payable(shares, SortBy(winners, NegWeight))
  {
    SortByProperties(winners, NegWeight);
    var order := SortBy(winners, NegWeight);
    forall j | 0 <= j < |order| ensures PositionOf(shares, order[j].id) < |shares| {
      PositionIsFirst(shares, order[j].id);
      assert order[j] in winners;
    }
  }

  /** Where the floor shares do not exceed the reward, what is left to spend is
      what they leave of it. */
  lemma DistributeUnfolded(reward: u64, total: u64, winners: seq<Winner>)
    returns (shares: seq<Share>, order: seq<Winner>, left: u64)
    requires total > 0 && Paid(FloorShares(reward, total, winners)) <= reward
    ensures shares == FloorShares(reward, total, winners)
    ensures order == SortBy(winners, NegWeight) && |order| == |winners| && Payable(shares, order)
    ensures left == reward - Paid(shares)
    ensures Distribute(reward, total, winners) == SpendRemainder(shares, order, 0, left)
  {
    shares := FloorShares(reward, total, winners);
    order := SortBy(winners, NegWeight);
    left := reward - Paid(shares);
    SumExact(shares);
    EveryWinnerPayable(shares, winners);
    SortByProperties(winners, NegWeight);
  }

  /** The remainder loop gives out at most one token per winner. So the reward
      is paid exactly if and only if it exceeds the floor shares by no more than
      the number of winners, and otherwise the rest is not paid at all. */
  lemma {:induction false} PaidExactly(reward: u64, total: u64, winners: seq<Winner>)
    requires total > 0 && Paid(FloorShares(reward, total, winners)) <= reward
    ensures var floors := Paid(FloorShares(reward, total, winners));
      var paid := Paid(Distribute(reward, total, winners));
      && floors <= paid <= reward
      && (paid == reward <==> reward <= floors + |winners|)
      && (paid < reward ==> paid == floors + |winners|)
  {
    var shares, order, left := DistributeUnfolded(reward, total, winners);
    RemainderSpent(shares, order, 0, left);
  }

  /** For a total that has not wrapped: never more than the reward is paid; the
      exact condition; and a sufficient one, that no product saturates. */
  lemma {:induction false} PaidOut(reward: u64, winners: seq<Winner>)
    requires 0 < TotalWeight(winners) < LIMIT
    ensures var total: u64 := TotalWeight(winners);
      var paid := Paid(Distribute(reward, total, winners));
      && paid <= reward
      && (paid == reward <==> reward <= Paid(FloorShares(reward, total, winners)) + |winners|)
      && (Unsaturated(reward, winners) ==> paid == reward)
  {
    FloorSharesBound(reward, TotalWeight(winners), winners);
    PaidExactly(reward, TotalWeight(winners), winners);
  }

  lemma {:induction false} OneFloorShare(reward: u64, total: u64, w: Winner)
    requires total > 0
    ensures FloorShares(reward, total, [w]) == [ShareOf(reward, total, w)]
    ensures Paid(FloorShares(reward, total, [w])) == FloorAmount(reward, total, w.weight)
    ensures TotalWeight([w]) == w.weight
  {
    assert [w][..0] == [];
    assert [ShareOf(reward, total, w)][..0] == [];
  }

  /** A saturating product may cost the winners part of the reward: a lone winner
      of weight four is paid half of two to the sixty-third. */
  lemma SaturationUnderpays()
    ensures TotalWeight([Winner(7, 4)]) == 4
    ensures Paid(Distribute(HALF, 4, [Winner(7, 4)])) == HALF / 2
  {
    OneFloorShare(HALF, 4, Winner(7, 4));
    PaidExactly(HALF, 4, [Winner(7, 4)]);
  }

  /** Or it may cost them nothing: of weights two and one the heavier product
      saturates, and the tokens of the remainder make up for it. */
  lemma SaturationMayPayAll()
    ensures var winners := [Winner(7, 2), Winner(8, 1)];
      TotalWeight(winners) == 3 && !Unsaturated(HALF, winners) && Paid(Distribute(HALF, 3, winners)) == HALF
  {
    var winners := [Winner(7, 2), Winner(8, 1)];
    OneFloorShare(HALF, 3, Winner(7, 2));
    assert winners[..1] == [Winner(7, 2)];
    assert HALF * winners[0].weight >= LIMIT;
    var shares := FloorShares(HALF, 3, winners);
    assert shares == [ShareOf(HALF, 3, Winner(7, 2)), ShareOf(HALF, 3, Winner(8, 1))];
    assert shares[..1] == FloorShares(HALF, 3, [Winner(7, 2)]);
    assert Paid(shares) == MAX / 3 + HALF / 3;
    PaidOut(HALF, winners);
  }

  // ------------------------------------------------------- totals that wrapped

  lemma {:induction false} SpendNeverLowers(shares: seq<Share>, order: seq<Winner>, j: nat, remainder: u64)
    requires j <= |order|
    requires forall i :: 0 <= i < |shares| ==> shares[i].amount + (|order| - j) < LIMIT
    ensures Paid(SpendRemainder(shares, order, j, remainder)) >= Paid(shares)
    decreases |order| - j
  {
    if j < |order| && remainder != 0 {
      var k := PositionOf(shares, order[j].id);
      if k == |shares| {
        SpendNeverLowers(shares, order, j + 1, remainder);
      } else {
        PaidUpdate(shares, k, Share(shares[k].id, shares[k].amount + 1));
        SpendNeverLowers(Credit(shares, k), order, j + 1, remainder - 1);
      }
    } else {
      assert SpendRemainder(shares, order, j, remainder) == shares;
    }
  }

  lemma FloorBelowHalf(reward: u64, total: u64, weight: u64)
    requires total >= 2
    ensures FloorAmount(reward, total, weight) < HALF
  {
    FloorBounds(SatMul(reward, weight), total);
    TwiceAtMost(FloorAmount(reward, total, weight), total);
  }

  lemma TwiceAtMost(x: nat, k: nat)
    requires k >= 2
    ensures 2 * x <= x * k
  {}

  /** The weights' sum may wrap, and then the divisor is too small. Whatever the
      divisor, the payout stays within the reward if and only if the floor shares
      do. */
  lemma {:induction false} PaidWithinPlainly(reward: u64, total: u64, winners: seq<Winner>)
    requires total >= 2 && |winners| <= HALF
    ensures Paid(Distribute(reward, total, winners)) <= reward <==> Paid(FloorShares(reward, total, winners)) <= reward
  {
    var shares := FloorShares(reward, total, winners);
    if Paid(shares) <= reward {
      PaidExactly(reward, total, winners);
    } else {
      forall i | 0 <= i < |shares| ensures shares[i].amount < HALF {
        FloorBelowHalf(reward, total, winners[i].weight);
      }
      SortByProperties(winners, NegWeight);
      SpendNeverLowers(shares, SortBy(winners, NegWeight), 0, SatSub(reward, WrappedSum(shares)));
    }
  }

  lemma {:induction false} SumWraps(shares: seq<Share>)
    ensures WrappedSum(shares) == Wrap(Paid(shares))
  {
    if shares != [] {
      SumWraps(shares[..|shares|-1]);
      WrapAdd(Paid(shares[..|shares|-1]), shares[|shares|-1].amount);
    }
  }

  /** What crediting one token does to the sum: a share at the limit wraps to zero. */
  function Gain(amount: u64): int {
    if amount == MAX then 1 - LIMIT else 1
  }

  /** The same over `count` winners from position `j` of the order. */
  function Gains(reward: u64, total: u64, order: seq<Winner>, j: nat, count: nat): int
    requires total > 0 && j + count <= |order|
    decreases count
  {
    if count == 0 then 0
    else Gain(FloorAmount(reward, total, order[j].weight)) + Gains(reward, total, order, j + 1, count - 1)
  }

  /** From position `j` on, every winner's share still is its floor share. */
  ghost predicate Untold(reward: u64, total: u64, shares: seq<Share>, order: seq<Winner>, j: nat)
    requires total > 0
  {
    && DistinctShares(shares) && DistinctIds(order) && Payable(shares, order)
    && forall x :: j <= x < |order| ==>
         shares[PositionOf(shares, order[x].id)].amount == FloorAmount(reward, total, order[x].weight)
  }

  lemma UntoldNext(reward: u64, total: u64, shares: seq<Share>, order: seq<Winner>, j: nat)
    requires total > 0 && j < |order| && Untold(reward, total, shares, order, j)
    ensures var k := PositionOf(shares, order[j].id);
      k < |shares| && Untold(reward, total, Credit(shares, k), order, j + 1)
  {
    var k := PositionOf(shares, order[j].id);
    var next := Credit(shares, k);
    forall x | 0 <= x < |order|
      ensures PositionOf(next, order[x].id) == PositionOf(shares, order[x].id)
      ensures x > j ==> PositionOf(shares, order[x].id) != k
    {
      PositionSameIds(shares, next, order[x].id);
      PositionIsFirst(shares, order[x].id);
      PositionIsFirst(shares, order[j].id);
    }
  }

  lemma {:induction false} SpentSum(reward: u64, total: u64, shares: seq<Share>, order: seq<Winner>, j: nat,
      remainder: u64)
    requires total > 0 && j <= |order| && Untold(reward, total, shares, order, j)
    ensures Paid(SpendRemainder(shares, order, j, remainder)) ==
      Paid(shares) + Gains(reward, total, order, j, if remainder <= |order| - j then remainder else |order| - j)
    decreases |order| - j
  {
    if j < |order| && remainder != 0 {
      UntoldNext(reward, total, shares, order, j);
      var k := PositionOf(shares, order[j].id);
      PaidUpdate(shares, k, Share(shares[k].id, Add(shares[k].amount, 1)));
      SpentSum(reward, total, Credit(shares, k), order, j + 1, remainder - 1);
    } else {
      assert SpendRemainder(shares, order, j, remainder) == shares;
    }
  }

  lemma {:induction false} UntoldAtFirst(reward: u64, total: u64, winners: seq<Winner>)
    requires total > 0 && DistinctIds(winners)
    ensures Untold(reward, total, FloorShares(reward, total, winners), SortBy(winners, NegWeight), 0)
  {
    hide SortBy;
    var shares := FloorShares(reward, total, winners);
    var order := SortBy(winners, NegWeight);
    EveryWinnerPayable(shares, winners);
    SortByProperties(winners, NegWeight);
    if winners != [] {
      var _ := RankOf(winners, 0);
    }
    forall x | 0 <= x < |order|
      ensures shares[PositionOf(shares, order[x].id)].amount == FloorAmount(reward, total, order[x].weight)
    {
      assert order[x] in winners;
      var i :| 0 <= i < |winners| && winners[i] == order[x];
      PositionIsFirst(shares, order[x].id);
    }
  }

  /** How many winners get a token of the remainder. */
  function Tokens(reward: u64, total: u64, winners: seq<Winner>): (r: nat)
    requires total > 0
    ensures r <= |winners|
  {
    var left := SatSub(reward, Wrap(Paid(FloorShares(reward, total, winners))));
    if left <= |winners| then left else |winners|
  }

  /** What distinct winners are paid, for every divisor and all weights, without
      running the payout: floor shares, tokens, and what tokens wrap away. */
  lemma {:induction false} PaidInClosedForm(reward: u64, total: u64, winners: seq<Winner>)
    requires total > 0 && DistinctIds(winners)
    ensures |SortBy(winners, NegWeight)| == |winners|
    ensures Paid(Distribute(reward, total, winners)) == Paid(FloorShares(reward, total, winners))
      + Gains(reward, total, SortBy(winners, NegWeight), 0, Tokens(reward, total, winners))
  {
    hide SortBy;
    var shares := FloorShares(reward, total, winners);
    SortByProperties(winners, NegWeight);
    UntoldAtFirst(reward, total, winners);
    SumWraps(shares);
    SpentSum(reward, total, shares, SortBy(winners, NegWeight), 0, SatSub(reward, WrappedSum(shares)));
  }

  /** So distinct winners get no more than the reward, whatever the divisor, exactly
      when floor shares and tokens come to no more. */
  lemma {:induction false} PaidWithinExactly(reward: u64, total: u64, winners: seq<Winner>)
    requires total > 0 && DistinctIds(winners)
    ensures |SortBy(winners, NegWeight)| == |winners|
    ensures Paid(Distribute(reward, total, winners)) <= reward <==>
      Paid(FloorShares(reward, total, winners))
        + Gains(reward, total, SortBy(winners, NegWeight), 0, Tokens(reward, total, winners)) <= reward
  {
    PaidInClosedForm(reward, total, winners);
  }

  /** Is exactly the reward paid out? A condition on floor shares alone. */
  predicate PaysExactly(reward: u64, total: u64, winners: seq<Winner>)
    requires total > 0
  {
    |SortBy(winners, NegWeight)| == |winners| &&
    Paid(FloorShares(reward, total, winners))
      + Gains(reward, total, SortBy(winners, NegWeight), 0, Tokens(reward, total, winners)) == reward
  }

  /** A divisor of one that wrapped is one of these: three winners get floor shares
      far beyond a reward of three, and two tokens wrap them back to it. */
  lemma WrappedOneBalances()
    ensures var winners := [Winner(7, HALF), Winner(8, HALF), Winner(9, 1)];
      WrappedWeight(winners) == 1 && Paid(FloorShares(3, 1, winners)) > 3 && Paid(Distribute(3, 1, winners)) == 3
  {
    var winners := [Winner(7, HALF), Winner(8, HALF), Winner(9, 1)];
    assert winners[..2] == [Winner(7, HALF), Winner(8, HALF)];
    assert winners[..2][..1] == [Winner(7, HALF)] && winners[..2][..1][..0] == [];
    assert WrappedWeight(winners[..2][..1]) == HALF;
    assert WrappedWeight(winners[..2]) == 0;
    var shares := FloorShares(3, 1, winners);
    assert shares == [Share(7, MAX), Share(8, MAX), Share(9, 3)];
    assert shares[..2] == [Share(7, MAX), Share(8, MAX)];
    assert shares[..2][..1] == [Share(7, MAX)] && shares[..2][..1][..0] == [];
    assert Paid(shares[..2][..1]) == MAX;
    assert Paid(shares[..2]) == 2 * MAX;
    assert Paid(shares) == 2 * LIMIT + 1;
    Residue(2 * LIMIT + 1, LIMIT, 2, 1);
    SortBySorted(winners, NegWeight);
    PaidInClosedForm(3, 1, winners);
    assert Tokens(3, 1, winners) == 2;
    assert Gains(3, 1, winners, 2, 0) == 0;
    assert Gains(3, 1, winners, 1, 1) == 1 - LIMIT;
    assert Gains(3, 1, winners, 0, 2) == 2 - 2 * LIMIT;
  }

  /** Three winners whose weights add up to two after wrapping share out far more
      than a reward of four. */
  lemma WrappedTotalOverpays()
    ensures var winners := [Winner(7, HALF), Winner(8, HALF), Winner(9, 2)];
      WrappedWeight(winners) == 2 && Paid(Distribute(4, 2, winners)) > 4
  {
    var winners := [Winner(7, HALF), Winner(8, HALF), Winner(9, 2)];
    assert winners[..2] == [Winner(7, HALF), Winner(8, HALF)];
    assert winners[..2][..1] == [Winner(7, HALF)] && winners[..2][..1][..0] == [];
    assert WrappedWeight(winners[..2][..1]) == HALF;
    assert WrappedWeight(winners[..2]) == 0;
    var shares := FloorShares(4, 2, winners);
    assert 4 * HALF >= LIMIT;
    PaidAtLeast(shares, 0);
    PaidWithinPlainly(4, 2, winners);
  }

  // ------------------------------------------------------------------ fairness

  ghost predicate DistinctShares(shares: seq<Share>) {
    forall i, j :: 0 <= i < j < |shares| ==> shares[i].id != shares[j].id
  }

  /** With distinct ids a token meant for one winner reaches its own share. */
  lemma TokenReaches(shares: seq<Share>, order: seq<Winner>, j: nat, i: nat, rank: nat, k: nat)
    requires i < |shares| && j <= rank < |order|
    requires DistinctShares(shares) && DistinctIds(order)
    requires order[rank].id == shares[i].id
    requires k == PositionOf(shares, order[j].id) < |shares|
    ensures k == i <==> j == rank
    ensures forall s: Share :: s.id == shares[k].id ==> DistinctShares(shares[k := s])
    ensures j == rank ==> forall x :: rank < x < |order| ==> order[x].id != shares[i].id
  {
    PositionIsFirst(shares, order[j].id);
  }

  /** The share at position `i` after spending, when winners are distinct:
      one more token exactly for those among the first `remainder` in order. */
  lemma {:induction false} SpentAt(shares: seq<Share>, order: seq<Winner>, j: nat, remainder: u64, i: nat, rank: nat)
    returns (paid: seq<Share>)
    requires i < |shares| && j <= rank < |order|
    requires DistinctShares(shares) && DistinctIds(order) && Payable(shares, order)
    requires order[rank].id == shares[i].id
    requires Paid(shares) + remainder < LIMIT
    ensures paid == SpendRemainder(shares, order, j, remainder)
    ensures paid[i].amount == shares[i].amount + if rank - j < remainder then 1 else 0
    decreases |order| - j
  {
    if remainder == 0 {
      paid := shares;
    } else {
      var next, k := OneToken(shares, order, j, remainder);
      TokenReaches(shares, order, j, i, rank, k);
      if j == rank {
        paid := SpendRemainder(next, order, j + 1, remainder - 1);
        Untouched(next, order, j + 1, remainder - 1, i);
      } else {
        paid := SpentAt(next, order, j + 1, remainder - 1, i, rank);
      }
    }
  }

  lemma {:induction false} Untouched(shares: seq<Share>, order: seq<Winner>, j: nat, remainder: u64, i: nat)
    requires i < |shares| && j <= |order|
    requires forall x :: j <= x < |order| ==> order[x].id != shares[i].id
    ensures SpendRemainder(shares, order, j, remainder)[i] == shares[i]
    decreases |order| - j
  {
    if j < |order| && remainder != 0 {
      var k := PositionOf(shares, order[j].id);
      PositionIsFirst(shares, order[j].id);
      if k == |shares| {
        Untouched(shares, order, j + 1, remainder, i);
      } else {
        Untouched(Credit(shares, k), order, j + 1, remainder - 1, i);
      }
    }
  }

  ghost predicate DistinctIds(winners: seq<Winner>) {
    forall i, j :: 0 <= i < j < |winners| ==> winners[i].id != winners[j].id
  }

  /** Sorting keeps ids distinct and gives every winner a rank. */
  lemma RankOf(winners: seq<Winner>, i: nat) returns (rank: nat)
    requires i < |winners| && DistinctIds(winners)
    ensures rank < |SortBy(winners, NegWeight)| && SortBy(winners, NegWeight)[rank] == winners[i]
    ensures DistinctIds(SortBy(winners, NegWeight))
  {
    hide SortBy;
    var order := SortBy(winners, NegWeight);
    SortByProperties(winners, NegWeight);
    assert winners[i] in order;
    rank :| 0 <= rank < |order| && order[rank] == winners[i];
    forall x, y | 0 <= x < y < |order| ensures order[x].id != order[y].id {
      if order[x].id == order[y].id {
        assert order[x] in winners && order[y] in winners;
        assert order[x] == order[y];
        TwiceInSequence(order, x, y);
        assert multiset(winners)[order[x]] >= 2;
        OnceInDistinct(winners, order[x]);
      }
    }
  }

  lemma TwiceInSequence<T>(s: seq<T>, x: nat, y: nat)
    requires x < y < |s| && s[x] == s[y]
    ensures multiset(s)[s[x]] >= 2
  {
    assert s == s[..y] + [s[y]] + s[y+1..];
    assert s[..y][x] == s[x];
    assert s[x] in multiset(s[..y]);
  }

  lemma OnceInDistinct(winners: seq<Winner>, w: Winner)
    requires DistinctIds(winners)
    ensures multiset(winners)[w] <= 1
  {
    assert Distinct(winners) by {
      forall i, j | 0 <= i < j < |winners| ensures winners[i] != winners[j] {
        assert winners[i].id != winners[j].id;
      }
    }
    DistinctCount(winners, w);
  }

  /** Where a winner stands in the order decides its extra token. */
  lemma {:induction false} PaidAt(reward: u64, winners: seq<Winner>, i: nat, rank: nat)
    requires 0 < TotalWeight(winners) < LIMIT
    requires DistinctIds(winners) && i < |winners|
    requires DistinctIds(SortBy(winners, NegWeight))
    requires rank < |SortBy(winners, NegWeight)| && SortBy(winners, NegWeight)[rank] == winners[i]
    ensures var total: u64 := TotalWeight(winners);
      var left := reward - Paid(FloorShares(reward, total, winners));
      Distribute(reward, total, winners)[i].amount ==
        FloorAmount(reward, total, winners[i].weight) + if rank < left then 1 else 0
  {
    FloorSharesBound(reward, TotalWeight(winners), winners);
    var shares, order, left := DistributeUnfolded(reward, TotalWeight(winners), winners);
    var paid := SpentAt(shares, order, 0, left, i, rank);
  }

  /** With distinct winners each is paid its floor share or one token more,
      and a strictly heavier winner is never paid less. */
  lemma {:induction false} FairShares(reward: u64, winners: seq<Winner>, i: nat, j: nat)
    requires 0 < TotalWeight(winners) < LIMIT
    requires DistinctIds(winners)
    requires i < |winners| && j < |winners|
    ensures var total: u64 := TotalWeight(winners);
      var paid := Distribute(reward, total, winners);
      && FloorAmount(reward, total, winners[i].weight) <= paid[i].amount
      && paid[i].amount <= FloorAmount(reward, total, winners[i].weight) + 1
      && (winners[i].weight > winners[j].weight ==> paid[i].amount >= paid[j].amount)
  {
    var ri := RankOf(winners, i);
    var rj := RankOf(winners, j);
    PaidAt(reward, winners, i, ri);
    PaidAt(reward, winners, j, rj);
    if winners[i].weight > winners[j].weight {
      HeavierRanksFirst(winners, ri, rj);
      FloorMonotone(reward, TotalWeight(winners), winners[i].weight, winners[j].weight);
    }
  }

  lemma {:induction false} HeavierRanksFirst(winners: seq<Winner>, ri: nat, rj: nat)
    requires var order := SortBy(winners, NegWeight);
      ri < |order| && rj < |order| && order[ri].weight > order[rj].weight
    ensures ri < rj
  {
    SortByProperties(winners, NegWeight);
    var order := SortBy(winners, NegWeight);
    assert rj < ri ==> NegWeight(order[rj]) <= NegWeight(order[ri]);
  }

  lemma FloorMonotone(reward: u64, total: u64, w: u64, v: u64)
    requires total > 0 && w >= v
    ensures FloorAmount(reward, total, w) >= FloorAmount(reward, total, v)
  {
    CancelHelper(w, v, if reward == 0 then 1 else reward);
    DivMonotone(SatMul(reward, v), SatMul(reward, w), total);
  }

  lemma DivMonotone(a: nat, b: nat, d: nat)
    requires a <= b && d > 0
    ensures a / d <= b / d
  {
    FloorBounds(a, d);
    FloorBounds(b, d);
    CancelFactor(a / d, b / d + 1, d);
  }

  /** The loop of `distribute_reward`: shares, then the remainder one token at
      a time down the list of winners ordered by weight. */
  method DistributeReward(reward: u64, total: u64, winners: seq<Winner>) returns (shares: seq<Share>)
    requires total > 0
    ensures shares == Distribute(reward, total, winners)
  {
    shares := FloorShares(reward, total, winners);
    var distributed: u64 := 0;
    for i := 0 to |shares|
      invariant distributed == WrappedSum(shares[..i])
    {
      assert shares[..i+1][..i] == shares[..i];
      distributed := Add(distributed, shares[i].amount);
    }
    assert shares[..|shares|] == shares;
    var remainder := SatSub(reward, distributed);
    var order := SortBy(winners, NegWeight);
    for j := 0 to |order|
      invariant |shares| == |winners|
      invariant SpendRemainder(shares, order, j, remainder) == Distribute(reward, total, winners)
    {
      if remainder == 0 {
        break;
      }
      var k := PositionOf(shares, order[j].id);
      if k < |shares| {
        shares := Credit(shares, k);
        remainder := remainder - 1;
      }
    }
  }
}
