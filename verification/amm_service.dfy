/**
 * One pool of the market maker with its liquidity positions, protocol fees and the wallets it settles against. An
 * operation settles the wallets first and writes the pool and the position or the fees afterwards; how each access to
 * the store went comes in as a parameter.
 */
module AmmServices {
  import opened MatchingTypes
  import opened MapSums
  import opened WalletStores
  import opened Amm

  /** token0 and token1 are the pool's assets; positions are the shares of each provider. */
  datatype PoolState = PoolState(
    token0: Asset,
    token1: Asset,
    pool: Pool,
    fees0: real,
    fees1: real,
    positions: map<User, real>,
    rows: Rows)

  function Ops(m: PoolState, user: User, delta0: real, delta1: real): seq<Op> {
    [Op(Key(user, m.token0, Spot), 0.0, delta0), Op(Key(user, m.token1, Spot), 0.0, delta1)]
  }

  function SharesOf(m: PoolState, user: User): real {
    if user in m.positions then m.positions[user] else 0.0
  }

  /** Shares are out exactly while there are reserves. */
  predicate SanePool(p: Pool) {
    if p.shares == 0.0 then p.reserve0 == 0.0 == p.reserve1
    else p.shares > 0.0 && p.reserve0 > 0.0 && p.reserve1 > 0.0
  }

  /** The providers hold all shares of a sane pool. */
  ghost predicate Sane(m: PoolState) {
    && SanePool(m.pool)
    && (forall u :: u in m.positions ==> m.positions[u] >= 0.0)
    && Sum(m.positions) == m.pool.shares
  }

  function Provide(m: PoolState, user: User, amount0: real, amount1: real, root: real): Option<PoolState>
    requires m.pool.shares != 0.0 ==> m.pool.reserve0 != 0.0
  {
    if amount0 <= 0.0 || amount1 <= 0.0 then None
    else
      var (in1, minted) := AddLiquidity(m.pool, amount0, amount1, root);
      match Settled(m.rows, Ops(m, user, -amount0, -in1))
      case None => None
      case Some(rows) =>
        Some(m.(rows := rows,
                pool := m.pool.(reserve0 := m.pool.reserve0 + amount0, reserve1 := m.pool.reserve1 + in1, shares := m.pool.shares + minted),
                positions := m.positions[user := SharesOf(m, user) + minted]))
  }

  function Redeem(m: PoolState, user: User, shares: real): Option<PoolState> {
    match RemoveLiquidity(m.pool, shares)
    case None => None
    case Some((out0, out1)) =>
      if user !in m.positions || m.positions[user] < shares then None
      else
        match Settled(m.rows, Ops(m, user, out0, out1))
        case None => None
        case Some(rows) =>
          Some(m.(rows := rows,
                  pool := m.pool.(reserve0 := m.pool.reserve0 - out0, reserve1 := m.pool.reserve1 - out1, shares := m.pool.shares - shares),
                  positions := m.positions[user := m.positions[user] - shares]))
  }

  function SwapOps(m: PoolState, user: User, zeroForOne: bool, amountIn: real, out: real): seq<Op> {
    var (tokenIn, tokenOut) := if zeroForOne then (m.token0, m.token1) else (m.token1, m.token0);
    [Op(Key(user, tokenIn, Spot), 0.0, -amountIn), Op(Key(user, tokenOut, Spot), 0.0, out)]
  }

  /** A swap below the wanted minimum is refused; the fee goes to the protocol, in the token that came in. */
  function Exchange(m: PoolState, user: User, tokenIn: Asset, amountIn: real, minOut: real): Option<PoolState> {
    if tokenIn != m.token0 && tokenIn != m.token1 then None
    else
      var zeroForOne := tokenIn == m.token0;
      match QuoteSwap(m.pool, zeroForOne, amountIn)
      case None => None
      case Some((out, fee, _)) =>
        if minOut > 0.0 && out < minOut then None
        else
          match Settled(m.rows, SwapOps(m, user, zeroForOne, amountIn, out))
          case None => None
          case Some(rows) =>
            Some(m.(rows := rows,
                    pool := ApplySwap(m.pool, zeroForOne, amountIn, out),
                    fees0 := if zeroForOne then m.fees0 + fee else m.fees0,
                    fees1 := if zeroForOne then m.fees1 else m.fees1 + fee))
  }

  // ----- when a write fails -----

  /** Whether the provider's position could be read, and the pool and then the position or the fees be written. */
  datatype Writes = Writes(read: bool, pool: bool, second: bool)

  /** What is stored of an operation that took m to done, when it breaks off at the first write that fails. */
  function Stored(m: PoolState, done: PoolState, w: Writes): PoolState {
    if !w.pool then m.(rows := done.rows)
    else if !w.second then m.(rows := done.rows, pool := done.pool)
    else done
  }

  /** A position that cannot be read is taken for none, and the shares minted now replace it. */
  function Provided(m: PoolState, user: User, amount0: real, amount1: real, root: real, w: Writes): (PoolState, bool)
    requires SanePool(m.pool)
  {
    match Provide(m, user, amount0, amount1, root)
    case None => (m, false)
    case Some(done) =>
      var minted := done.positions[user] - SharesOf(m, user);
      (Stored(m, if w.read then done else done.(positions := m.positions[user := minted]), w), w.pool && w.second)
  }

  function Redeemed(m: PoolState, user: User, shares: real, w: Writes): (PoolState, bool) {
    match Redeem(m, user, shares)
    case None => (m, false)
    case Some(done) => (Stored(m, done, w), w.pool && w.second)
  }

  /** The fees are written only when there is one. */
  function Exchanged(m: PoolState, user: User, tokenIn: Asset, amountIn: real, minOut: real, w: Writes): (PoolState, bool) {
    match Exchange(m, user, tokenIn, amountIn, minOut)
    case None => (m, false)
    case Some(done) => (Stored(m, done, w), w.pool && (w.second || amountIn * m.pool.feeRate == 0.0))
  }

  class Service {
    const store: PGWalletStore
    const token0: Asset
    const token1: Asset
    const feeRate: FeeRate
    var reserve0: real
    var reserve1: real
    var lpShares: real
    var protocolFees0: real
    var protocolFees1: real
    var active: bool
    var positions: map<User, real>

    constructor (store: PGWalletStore, token0: Asset, token1: Asset, feeRate: FeeRate)
      ensures this.store == store
      ensures State() == PoolState(token0, token1, Pool(0.0, 0.0, 0.0, feeRate, true), 0.0, 0.0, map[], store.rows)
      ensures Sane(State())
    {
      this.store, this.token0, this.token1, this.feeRate := store, token0, token1, feeRate;
      reserve0, reserve1, lpShares, protocolFees0, protocolFees1 := 0.0, 0.0, 0.0, 0.0, 0.0;
      active := true;
      positions := map[];
    }

    function PoolNow(): Pool
      reads this
    {
      Pool(reserve0, reserve1, lpShares, feeRate, active)
    }

    ghost function State(): PoolState
      reads this, store
    {
      PoolState(token0, token1, PoolNow(), protocolFees0, protocolFees1, positions, store.rows)
    }

    /** guess is the starting point of the square root, a power of two near it. */
    method AddLiquidity(user: User, amount0: real, amount1: real, guess: real, w: Writes) returns (ok: bool, shares: real)
      requires SanePool(PoolNow()) && guess > 0.0
      modifies this`reserve0, this`reserve1, this`lpShares, this`positions, store`rows
      ensures (State(), ok) == Provided(old(State()), user, amount0, amount1, shares, w)
      ensures amount0 > 0.0 && amount1 > 0.0 && old(lpShares) == 0.0 ==> shares > 0.0 && shares * shares >= amount0 * amount1
    {
      hide Settled, Sum, Amm.AddLiquidity;
      shares := 0.0;
      if amount0 <= 0.0 || amount1 <= 0.0 {
        return false, 0.0;
      }
      var in1;
      in1, shares := Mint(amount0, amount1, guess);
      ok := store.Settle([Op(Key(user, token0, Spot), 0.0, -amount0), Op(Key(user, token1, Spot), 0.0, -in1)]);
      if !ok {
        return;
      }
      if !w.pool {
        return false, shares;
      }
      reserve0, reserve1, lpShares := reserve0 + amount0, reserve1 + in1, lpShares + shares;
      if !w.second {
        return false, shares;
      }
      positions := positions[user := (if w.read && user in positions then positions[user] else 0.0) + shares];
    }

    /** What goes in beside amount0, and the shares it mints. */
    method Mint(amount0: real, amount1: real, guess: real) returns (in1: real, shares: real)
      requires amount0 > 0.0 && amount1 > 0.0 && guess > 0.0 && (lpShares != 0.0 ==> reserve0 != 0.0)
      ensures (in1, shares) == Amm.AddLiquidity(PoolNow(), amount0, amount1, shares)
      ensures lpShares == 0.0 ==> shares > 0.0 && shares * shares >= amount0 * amount1
    {
      ghost var p := PoolNow();
      in1 := amount1;
      if lpShares == 0.0 {
        assert amount0 * amount1 > 0.0;
        shares := Sqrt(amount0 * amount1, guess);
      } else {
        var needed := amount0 * reserve1 / reserve0;
        if amount1 > needed {
          in1 := needed;
        }
        shares := amount0 * lpShares / reserve0;
        assert needed == Needed(p, amount0) && shares == Minted(p, amount0);
      }
    }

    method RemoveLiquidity(user: User, shares: real, w: Writes) returns (ok: bool)
      modifies this`reserve0, this`reserve1, this`lpShares, this`positions, store`rows
      ensures (State(), ok) == Redeemed(old(State()), user, shares, w)
    {
      hide Settled;
      if shares <= 0.0 || lpShares == 0.0 || shares > lpShares {
        return false;
      }
      var out0, out1 := shares * reserve0 / lpShares, shares * reserve1 / lpShares;
      if user !in positions || positions[user] < shares {
        return false;
      }
      ghost var p := PoolNow();
      assert out0 == PartOf(p, p.reserve0, shares) && out1 == PartOf(p, p.reserve1, shares);
      assert Amm.RemoveLiquidity(p, shares) == Some((out0, out1));
      ok := store.Settle([Op(Key(user, token0, Spot), 0.0, out0), Op(Key(user, token1, Spot), 0.0, out1)]);
      if !ok {
        return;
      }
      if !w.pool {
        return false;
      }
      reserve0, reserve1, lpShares := reserve0 - out0, reserve1 - out1, lpShares - shares;
      if !w.second {
        return false;
      }
      positions := positions[user := positions[user] - shares];
    }

    method ExecuteSwapWithMinOut(user: User, tokenIn: Asset, amountIn: real, minOut: real, w: Writes)
      returns (r: Option<real>)
      modifies this`reserve0, this`reserve1, this`protocolFees0, this`protocolFees1, store`rows
      ensures (State(), r.Some?) == Exchanged(old(State()), user, tokenIn, amountIn, minOut, w)
    {
      hide Settled, Output;
      if tokenIn != token0 && tokenIn != token1 {
        return None;
      }
      var zeroForOne := tokenIn == token0;
      var quote := QuoteSwap(PoolNow(), zeroForOne, amountIn);
      if quote == None || (minOut > 0.0 && quote.value.0 < minOut) {
        return None;
      }
      var out, fee := quote.value.0, quote.value.1;
      var tokenOut := if zeroForOne then token1 else token0;
      var ok := store.Settle([Op(Key(user, tokenIn, Spot), 0.0, -amountIn), Op(Key(user, tokenOut, Spot), 0.0, out)]);
      if !ok {
        return None;
      }
      if !w.pool {
        return None;
      }
      ghost var done := Exchange(old(State()), user, tokenIn, amountIn, minOut).value;
      var net := amountIn * (1.0 - feeRate);
      if zeroForOne {
        reserve0, reserve1 := reserve0 + net, reserve1 - out;
      } else {
        reserve1, reserve0 := reserve1 + net, reserve0 - out;
      }
      assert PoolNow() == done.pool && fee == amountIn * feeRate;
      FeeIsNotNegative(amountIn, feeRate);
      if fee > 0.0 {
        if !w.second {
          return None;
        }
        if zeroForOne {
          protocolFees0 := protocolFees0 + fee;
        } else {
          protocolFees1 := protocolFees1 + fee;
        }
      }
      r := Some(out);
    }
  }

  lemma FeeIsNotNegative(amountIn: real, feeRate: real)
    ensures amountIn > 0.0 && feeRate >= 0.0 ==> amountIn * feeRate >= 0.0
  {
  }
}
