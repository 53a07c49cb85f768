/**
 * What the operations of the market maker keep, over any run on a pool that started empty, and that they keep it exactly
 * when no write to the store fails after the wallets were settled.
 */
module AmmLaws {
  import opened MatchingTypes
  import opened MapSums
  import opened WalletStores
  import opened Amm
  import opened AmmServices

  // ----- shares and positions -----

  lemma PositionsUpdate(positions: map<User, real>, user: User, x: real)
    ensures Sum(positions[user := x]) == Sum(positions) + x - (if user in positions then positions[user] else 0.0)
  {
    SumUpdate(positions, user, x);
  }

  lemma MintedIsPositive(p: Pool, amount0: real)
    requires p.shares > 0.0 && p.reserve0 > 0.0 && p.reserve1 > 0.0 && amount0 > 0.0
    ensures Minted(p, amount0) > 0.0 && Needed(p, amount0) > 0.0
  {
    assert Minted(p, amount0) * p.reserve0 == amount0 * p.shares;
    assert Needed(p, amount0) * p.reserve0 == amount0 * p.reserve1;
    assert amount0 * p.shares > 0.0 && amount0 * p.reserve1 > 0.0;
    PositiveFactor(Minted(p, amount0), p.reserve0);
    PositiveFactor(Needed(p, amount0), p.reserve0);
  }

  lemma ProvideIsSane(m: PoolState, user: User, amount0: real, amount1: real, root: real)
    requires Sane(m) && root > 0.0 && Provide(m, user, amount0, amount1, root).Some?
    ensures Sane(Provide(m, user, amount0, amount1, root).value)
  {
    hide Sum, Settled, Minted, Needed;
    var minted := Amm.AddLiquidity(m.pool, amount0, amount1, root).1;
    if m.pool.shares != 0.0 {
      MintedIsPositive(m.pool, amount0);
    }
    PositionsUpdate(m.positions, user, SharesOf(m, user) + minted);
  }

  /** Burning part of the shares leaves part of each reserve; burning all of them empties the pool. */
  lemma PartIsProper(p: Pool, reserve: real, shares: real)
    requires 0.0 < shares <= p.shares && reserve > 0.0
    ensures 0.0 < PartOf(p, reserve, shares) <= reserve
    ensures PartOf(p, reserve, shares) == reserve <==> shares == p.shares
  {
    var part := PartOf(p, reserve, shares);
    assert part * p.shares == shares * reserve;
    assert p.shares * (reserve - part) == reserve * (p.shares - shares);
    assert shares * reserve > 0.0;
    PositiveFactor(part, p.shares);
    PositiveFactor(reserve - part, p.shares);
    PositiveFactor(p.shares - shares, reserve);
  }

  lemma RedeemIsSane(m: PoolState, user: User, shares: real)
    requires Sane(m) && Redeem(m, user, shares).Some?
    ensures Sane(Redeem(m, user, shares).value)
  {
    hide Sum, Settled, PartOf;
    PartIsProper(m.pool, m.pool.reserve0, shares);
    PartIsProper(m.pool, m.pool.reserve1, shares);
    PositionsUpdate(m.positions, user, m.positions[user] - shares);
  }

  lemma ExchangeIsSane(m: PoolState, user: User, tokenIn: Asset, amountIn: real, minOut: real)
    requires Sane(m) && Exchange(m, user, tokenIn, amountIn, minOut).Some?
    ensures Sane(Exchange(m, user, tokenIn, amountIn, minOut).value)
    ensures var p, q := m.pool, Exchange(m, user, tokenIn, amountIn, minOut).value.pool;
      q.reserve0 * q.reserve1 == p.reserve0 * p.reserve1
  {
    hide Sum, Settled, Output, ApplySwap;
    var zeroForOne := tokenIn == m.token0;
    var q := Exchange(m, user, tokenIn, amountIn, minOut).value.pool;
    assert q == Swapped(m.pool, zeroForOne, amountIn);
    SwapKeepsProduct(m.pool, zeroForOne, amountIn);
    SwapReserves(m.pool, zeroForOne, amountIn);
  }

  // ----- every token stays in the books -----

  /** A token's wallets, reserve and protocol fees together. */
  ghost function Supply0(m: PoolState): real {
    Total(m.rows, OfAsset(m.token0)) + m.pool.reserve0 + m.fees0
  }

  ghost function Supply1(m: PoolState): real {
    Total(m.rows, OfAsset(m.token1)) + m.pool.reserve1 + m.fees1
  }

  /** A batch of two balance changes on one token each. */
  lemma TwoOps(rows: Rows, a: Key, x: real, b: Key, y: real, asset: Asset)
    requires Settled(rows, [Op(a, 0.0, x), Op(b, 0.0, y)]).Some?
    ensures Total(Settled(rows, [Op(a, 0.0, x), Op(b, 0.0, y)]).value, OfAsset(asset)) ==
      Total(rows, OfAsset(asset)) + When(a.asset == asset, x) + When(b.asset == asset, y)
  {
    hide Settled, Total, Deltas;
    var first, second := Op(a, 0.0, x), Op(b, 0.0, y);
    SettledTotal(rows, [first, second], OfAsset(asset));
    assert [first, second] == [first] + [second];
    DeltasConcat([first], [second], OfAsset(asset));
    DeltasOne(first, OfAsset(asset));
    DeltasOne(second, OfAsset(asset));
  }

  lemma ProvideConserves(m: PoolState, user: User, amount0: real, amount1: real, root: real)
    requires Sane(m) && m.token0 != m.token1 && Provide(m, user, amount0, amount1, root).Some?
    ensures var m' := Provide(m, user, amount0, amount1, root).value; Supply0(m') == Supply0(m) && Supply1(m') == Supply1(m)
  {
    hide Settled, Total, Minted, Needed, Sum;
    var in1 := Amm.AddLiquidity(m.pool, amount0, amount1, root).0;
    TwoOps(m.rows, Key(user, m.token0, Spot), -amount0, Key(user, m.token1, Spot), -in1, m.token0);
    TwoOps(m.rows, Key(user, m.token0, Spot), -amount0, Key(user, m.token1, Spot), -in1, m.token1);
  }

  lemma RedeemConserves(m: PoolState, user: User, shares: real)
    requires Sane(m) && m.token0 != m.token1 && Redeem(m, user, shares).Some?
    ensures var m' := Redeem(m, user, shares).value; Supply0(m') == Supply0(m) && Supply1(m') == Supply1(m)
  {
    hide Settled, Total, PartOf, Sum;
    var (out0, out1) := Amm.RemoveLiquidity(m.pool, shares).value;
    TwoOps(m.rows, Key(user, m.token0, Spot), out0, Key(user, m.token1, Spot), out1, m.token0);
    TwoOps(m.rows, Key(user, m.token0, Spot), out0, Key(user, m.token1, Spot), out1, m.token1);
  }

  lemma ExchangeConserves(m: PoolState, user: User, tokenIn: Asset, amountIn: real, minOut: real)
    requires Sane(m) && m.token0 != m.token1 && Exchange(m, user, tokenIn, amountIn, minOut).Some?
    ensures var m' := Exchange(m, user, tokenIn, amountIn, minOut).value; Supply0(m') == Supply0(m) && Supply1(m') == Supply1(m)
  {
    hide Settled, Total, Output, Sum;
    var zeroForOne := tokenIn == m.token0;
    var out := QuoteSwap(m.pool, zeroForOne, amountIn).value.0;
    var (tIn, tOut) := if zeroForOne then (m.token0, m.token1) else (m.token1, m.token0);
    TwoOps(m.rows, Key(user, tIn, Spot), -amountIn, Key(user, tOut, Spot), out, m.token0);
    TwoOps(m.rows, Key(user, tIn, Spot), -amountIn, Key(user, tOut, Spot), out, m.token1);
    NetAndFee(amountIn, m.pool.feeRate);
  }

  lemma NetAndFee(amountIn: real, feeRate: real)
    ensures amountIn * (1.0 - feeRate) + amountIn * feeRate == amountIn
  {
  }

  // ----- when an operation goes through -----

  /** A debit and a credit of different wallets go through exactly when the debit is available. */
  lemma DebitAndCredit(rows: Rows, a: Key, debit: real, b: Key, credit: real)
    requires debit > 0.0 && credit >= 0.0 && a != b
    ensures Settled(rows, [Op(a, 0.0, -debit), Op(b, 0.0, credit)]).Some? <==> Available(rows, a) >= debit
    ensures Available(rows, a) >= debit ==>
      var after := Settled(rows, [Op(a, 0.0, -debit), Op(b, 0.0, credit)]).value;
      && RowOf(after, a).balance == RowOf(rows, a).balance - debit && RowOf(after, b).balance == RowOf(rows, b).balance + credit
  {
    var ops := [Op(a, 0.0, -debit), Op(b, 0.0, credit)];
    assert ops[..1] == [ops[0]] && ops[..1][..0] == [];
    assert Settled(rows, ops[..1]) == ApplyOp(rows, ops[0]);
  }

  predicate PoolToken(m: PoolState, token: Asset) {
    token == m.token0 || token == m.token1
  }

  function OtherToken(m: PoolState, token: Asset): Asset {
    if token == m.token0 then m.token1 else m.token0
  }

  function BalanceOf(m: PoolState, user: User, token: Asset): real {
    RowOf(m.rows, Key(user, token, Spot)).balance
  }

  /** Without a minimum, a swap goes through exactly on an open pool with reserves, for an input the user has. */
  lemma SwapGoesThroughIff(m: PoolState, user: User, tokenIn: Asset, amountIn: real)
    requires Sane(m) && m.token0 != m.token1
    ensures Exchange(m, user, tokenIn, amountIn, 0.0).Some? <==>
      && PoolToken(m, tokenIn) && m.pool.active && m.pool.shares > 0.0
      && amountIn > 0.0 && Available(m.rows, Key(user, tokenIn, Spot)) >= amountIn
    ensures Exchange(m, user, tokenIn, amountIn, 0.0).Some? ==>
      var m' := Exchange(m, user, tokenIn, amountIn, 0.0).value;
      && BalanceOf(m', user, tokenIn) == BalanceOf(m, user, tokenIn) - amountIn
      && BalanceOf(m', user, OtherToken(m, tokenIn)) > BalanceOf(m, user, OtherToken(m, tokenIn))
  {
    hide Settled, Output, Sum, ApplySwap;
    var zeroForOne := tokenIn == m.token0;
    if PoolToken(m, tokenIn) && QuoteSwap(m.pool, zeroForOne, amountIn).Some? {
      var (rin, rout) := if zeroForOne then (m.pool.reserve0, m.pool.reserve1) else (m.pool.reserve1, m.pool.reserve0);
      OutputIs(rin, rout, Net(amountIn, m.pool.feeRate));
      DebitAndCredit(m.rows, Key(user, tokenIn, Spot), amountIn, Key(user, OtherToken(m, tokenIn), Spot),
                     QuoteSwap(m.pool, zeroForOne, amountIn).value.0);
    }
  }

  /** A swap is refused for its minimum exactly when it would have brought the user less, and is otherwise as without. */
  lemma SlippageIff(m: PoolState, user: User, tokenIn: Asset, amountIn: real, minOut: real)
    requires Sane(m) && m.token0 != m.token1
    ensures var free := Exchange(m, user, tokenIn, amountIn, 0.0);
      Exchange(m, user, tokenIn, amountIn, minOut) ==
        if free.Some? && minOut > 0.0
           && BalanceOf(free.value, user, OtherToken(m, tokenIn)) - BalanceOf(m, user, OtherToken(m, tokenIn)) < minOut
        then None else free
  {
    hide Settled, Output, Sum, ApplySwap;
    var zeroForOne := tokenIn == m.token0;
    if PoolToken(m, tokenIn) && QuoteSwap(m.pool, zeroForOne, amountIn).Some? {
      var (rin, rout) := if zeroForOne then (m.pool.reserve0, m.pool.reserve1) else (m.pool.reserve1, m.pool.reserve0);
      OutputIs(rin, rout, Net(amountIn, m.pool.feeRate));
      DebitAndCredit(m.rows, Key(user, tokenIn, Spot), amountIn, Key(user, OtherToken(m, tokenIn), Spot),
                     QuoteSwap(m.pool, zeroForOne, amountIn).value.0);
    }
  }

  /** Shares are redeemed exactly by who has them. */
  lemma RedeemGoesThroughIff(m: PoolState, user: User, shares: real)
    requires Sane(m) && m.token0 != m.token1
    ensures Redeem(m, user, shares).Some? <==> shares > 0.0 && SharesOf(m, user) >= shares
  {
    hide Settled, Sum, PartOf;
    if user in m.positions { SumBounds(m.positions, user); }
    if 0.0 < shares <= m.pool.shares {
      PartIsProper(m.pool, m.pool.reserve0, shares);
      PartIsProper(m.pool, m.pool.reserve1, shares);
      TwoCredits(m.rows, Key(user, m.token0, Spot), PartOf(m.pool, m.pool.reserve0, shares),
                 Key(user, m.token1, Spot), PartOf(m.pool, m.pool.reserve1, shares));
    }
  }

  lemma TwoCredits(rows: Rows, a: Key, x: real, b: Key, y: real)
    requires x >= 0.0 && y >= 0.0
    ensures Settled(rows, [Op(a, 0.0, x), Op(b, 0.0, y)]).Some?
  {
    var ops := [Op(a, 0.0, x), Op(b, 0.0, y)];
    assert ops[..1] == [ops[0]] && ops[..1][..0] == [];
    assert Settled(rows, ops[..1]) == ApplyOp(rows, ops[0]);
  }

  // ----- operations and their writes -----

  datatype Action =
    | Add(user: User, amount0: real, amount1: real, root: real, w: Writes)
    | Remove(user: User, shares: real, w: Writes)
    | Swap(user: User, tokenIn: Asset, amountIn: real, minOut: real, w: Writes)

  function Step(m: PoolState, a: Action): PoolState
    requires SanePool(m.pool)
  {
    match a
    case Add(user, amount0, amount1, root, w) => Provided(m, user, amount0, amount1, root, w).0
    case Remove(user, shares, w) => Redeemed(m, user, shares, w).0
    case Swap(user, tokenIn, amountIn, minOut, w) => Exchanged(m, user, tokenIn, amountIn, minOut, w).0
  }

  /** The wallets were settled, and then something that had to be written or read was not. */
  predicate BreaksOff(m: PoolState, a: Action)
    requires SanePool(m.pool)
  {
    match a
    case Add(user, amount0, amount1, root, w) =>
      Provide(m, user, amount0, amount1, root).Some? && (!w.pool || !w.second || (!w.read && SharesOf(m, user) != 0.0))
    case Remove(user, shares, w) => Redeem(m, user, shares).Some? && (!w.pool || !w.second)
    case Swap(user, tokenIn, amountIn, minOut, w) =>
      Exchange(m, user, tokenIn, amountIn, minOut).Some? && (!w.pool || (!w.second && amountIn * m.pool.feeRate != 0.0))
  }

  /** The providers hold all shares, and both tokens are where they were. */
  ghost predicate Kept(m: PoolState, m': PoolState) {
    && Sane(m') && m'.token0 == m.token0 && m'.token1 == m.token1
    && Supply0(m') == Supply0(m) && Supply1(m') == Supply1(m)
  }

  lemma AddKeepsIff(m: PoolState, user: User, amount0: real, amount1: real, root: real, w: Writes)
    requires Sane(m) && m.token0 != m.token1 && root > 0.0
    ensures var a := Add(user, amount0, amount1, root, w); Kept(m, Step(m, a)) <==> !BreaksOff(m, a)
    ensures SanePool(Step(m, Add(user, amount0, amount1, root, w)).pool)
  {
    hide Total, Sum, Settled, Minted, Needed;
    var r := Provide(m, user, amount0, amount1, root);
    if r.Some? {
      ProvideIsSane(m, user, amount0, amount1, root);
      ProvideConserves(m, user, amount0, amount1, root);
      var minted := Amm.AddLiquidity(m.pool, amount0, amount1, root).1;
      if m.pool.shares != 0.0 { MintedIsPositive(m.pool, amount0); }
      PositionsUpdate(m.positions, user, minted);
    }
  }

  lemma RemoveKeepsIff(m: PoolState, user: User, shares: real, w: Writes)
    requires Sane(m) && m.token0 != m.token1
    ensures var a := Remove(user, shares, w); Kept(m, Step(m, a)) <==> !BreaksOff(m, a)
    ensures SanePool(Step(m, Remove(user, shares, w)).pool)
  {
    hide Total, Sum, Settled, PartOf;
    if Redeem(m, user, shares).Some? {
      RedeemIsSane(m, user, shares);
      RedeemConserves(m, user, shares);
      PartIsProper(m.pool, m.pool.reserve0, shares);
    }
  }

  lemma SwapKeepsIff(m: PoolState, user: User, tokenIn: Asset, amountIn: real, minOut: real, w: Writes)
    requires Sane(m) && m.token0 != m.token1
    ensures var a := Swap(user, tokenIn, amountIn, minOut, w); Kept(m, Step(m, a)) <==> !BreaksOff(m, a)
    ensures SanePool(Step(m, Swap(user, tokenIn, amountIn, minOut, w)).pool)
  {
    hide Total, Sum, Settled, Output, ApplySwap;
    if Exchange(m, user, tokenIn, amountIn, minOut).Some? {
      ExchangeIsSane(m, user, tokenIn, amountIn, minOut);
      ExchangeConserves(m, user, tokenIn, amountIn, minOut);
      var zeroForOne := tokenIn == m.token0;
      assert Exchange(m, user, tokenIn, amountIn, minOut).value.pool == Swapped(m.pool, zeroForOne, amountIn);
      SwapReserves(m.pool, zeroForOne, amountIn);
      NetIsPositive(amountIn, m.pool.feeRate);
    }
  }

  /** An operation keeps both supplies and the shares exactly when it did not break off between its writes. */
  lemma StepKeepsIff(m: PoolState, a: Action)
    requires Sane(m) && m.token0 != m.token1 && (a.Add? ==> a.root > 0.0)
    ensures Kept(m, Step(m, a)) <==> !BreaksOff(m, a)
  {
    hide Step, BreaksOff, Kept;
    match a
    case Add(user, amount0, amount1, root, w) => AddKeepsIff(m, user, amount0, amount1, root, w);
    case Remove(user, shares, w) => RemoveKeepsIff(m, user, shares, w);
    case Swap(user, tokenIn, amountIn, minOut, w) => SwapKeepsIff(m, user, tokenIn, amountIn, minOut, w);
  }

  // ----- runs -----

  /** The states of a run that starts with an empty pool on any wallets; square roots of first deposits are positive. */
  ghost predicate IsRun(run: seq<PoolState>, actions: seq<Action>) {
    && |run| == |actions| + 1
    && Sane(run[0]) && run[0].pool.shares == 0.0 && run[0].token0 != run[0].token1
    && forall i :: 0 <= i < |actions| ==>
      (actions[i].Add? ==> actions[i].root > 0.0) && (SanePool(run[i].pool) ==> run[i + 1] == Step(run[i], actions[i]))
  }

  /** Up to there, no operation of the run broke off. */
  ghost predicate Unbroken(run: seq<PoolState>, actions: seq<Action>, n: nat)
    requires n < |run| == |actions| + 1
  {
    forall i :: 0 <= i < n ==> SanePool(run[i].pool) && !BreaksOff(run[i], actions[i])
  }

  /** Along a run, the shares and both tokens are accounted for at every point exactly when no operation broke off. */
  lemma {:induction false} RunConservesIff(run: seq<PoolState>, actions: seq<Action>, n: nat)
    requires IsRun(run, actions) && n < |run|
    ensures (forall i :: 0 <= i <= n ==> Kept(run[0], run[i])) <==> Unbroken(run, actions, n)
    decreases n
  {
    hide Step, BreaksOff, Supply0, Supply1, Sane;
    if n == 0 {
      assert Kept(run[0], run[0]);
    } else {
      RunConservesIff(run, actions, n - 1);
      assert Unbroken(run, actions, n) ==> Unbroken(run, actions, n - 1);
      if Unbroken(run, actions, n - 1) {
        assert Kept(run[0], run[n - 1]);
        SaneIsSanePool(run[n - 1]);
        StepKeepsIff(run[n - 1], actions[n - 1]);
        assert Kept(run[0], run[n]) <==> Kept(run[n - 1], run[n]);
      }
    }
  }

  lemma SaneIsSanePool(m: PoolState)
    ensures Sane(m) ==> SanePool(m.pool)
  {
  }

  /** A deposit whose pool could not be written: the provider has paid, and has nothing for it. */
  lemma LostDeposit()
    ensures var m := PoolState("BTC", "USDT", Pool(0.0, 0.0, 0.0, 0.0, true), 0.0, 0.0, map[],
                               map[Key("lp", "BTC", Spot) := Wallet(3.0, 0.0), Key("lp", "USDT", Spot) := Wallet(3.0, 0.0)]);
      var (after, ok) := Provided(m, "lp", 1.0, 1.0, 1.0, Writes(true, false, true));
      && Sane(m) && !ok && after.pool == m.pool && after.positions == map[]
      && after.rows == map[Key("lp", "BTC", Spot) := Wallet(2.0, 0.0), Key("lp", "USDT", Spot) := Wallet(2.0, 0.0)]
  {
    var btc, usdt := Key("lp", "BTC", Spot), Key("lp", "USDT", Spot);
    var rows := map[btc := Wallet(3.0, 0.0), usdt := Wallet(3.0, 0.0)];
    var ops := [Op(btc, 0.0, -1.0), Op(usdt, 0.0, -1.0)];
    assert ops[..1] == [ops[0]] && ops[..1][..0] == [];
    assert Settled(rows, ops[..1]) == ApplyOp(rows, ops[0]) == Some(rows[btc := Wallet(2.0, 0.0)]);
    var after := rows[btc := Wallet(2.0, 0.0)][usdt := Wallet(2.0, 0.0)];
    assert Settled(rows, ops) == Some(after);
    assert after == map[btc := Wallet(2.0, 0.0), usdt := Wallet(2.0, 0.0)];
  }
}
