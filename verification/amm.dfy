/** The constant-product market maker, in exact arithmetic: the pool formulas, and the service that applies them. */
module Amm {
  import opened MatchingTypes
  import opened MapSums
  import opened WalletStores

  /** A pool is only created with a fee rate from zero to below one. */
  type FeeRate = r: real | 0.0 <= r < 1.0

  datatype Pool = Pool(reserve0: real, reserve1: real, shares: real, feeRate: FeeRate, active: bool)

  // ----- the square root that prices the first deposit -----

  function Improve(x: real, z: real): real
    requires z > 0.0
  {
    (x / z + z) * 0.5
  }

  /** A Newton step lands on or above the root: its square exceeds x by a square. */
  lemma ImproveIsAbove(x: real, z: real)
    requires x > 0.0 && z > 0.0
    ensures Improve(x, z) > 0.0 && Improve(x, z) * Improve(x, z) >= x
    ensures z * z >= x ==> Improve(x, z) <= z
  {
    var y := x / z;
    assert y > 0.0 && y * z == x;
    var t := Improve(x, z);
    assert t == (y + z) * 0.5;
    var d := (z - y) * 0.5;
    assert t * t - y * z == d * d && d * d >= 0.0;
    if z * z >= x {
      assert (z - y) * z >= 0.0;
    }
  }

  lemma OtherFactor(a: real, b: real)
    requires a > 0.0 && a * b >= 0.0
    ensures b >= 0.0
  {
  }

  /** From above the root, a step leaves at most a quarter of the excess of the square. */
  lemma ImproveQuarters(x: real, z: real)
    requires x > 0.0 && z > 0.0 && z * z >= x
    ensures 4.0 * (Improve(x, z) * Improve(x, z) - x) <= z * z - x
  {
    var y := x / z;
    assert y > 0.0 && y * z == x;
    var t, e := Improve(x, z), z - y;
    assert t == (y + z) * 0.5;
    assert 4.0 * (t * t - y * z) == e * e;
    assert z * e == z * z - x;
    OtherFactor(z, e);
    assert e * (z - e) == e * y >= 0.0;
    assert e * e == z * e - e * (z - e);
  }

  function FourTo(n: nat): (p: real)
    ensures p >= 1.0
  {
    if n == 0 then 1.0 else 4.0 * FourTo(n - 1)
  }

  /** What is left of an excess after one more step, scaled back to the first step. */
  lemma ExcessShrinks(n: nat, before: real, after: real, first: real)
    requires 4.0 * after <= before && FourTo(n) * before <= first
    ensures FourTo(n + 1) * after <= first
  {
    var f := FourTo(n);
    assert f * (before - 4.0 * after) >= 0.0;
    assert FourTo(n + 1) * after == f * (4.0 * after);
  }

  /** The first guess made better once, squared, less x: what the error of the root is measured against. */
  function FirstExcess(x: real, guess: real): real
    requires guess > 0.0
  {
    Improve(x, guess) * Improve(x, guess) - x
  }

  /** A power of two with half the exponent of x is close enough that the first step is off by nine sixteenths at most. */
  lemma FirstExcessIsSmall(x: real, guess: real)
    requires x > 0.0 && guess > 0.0 && x <= 2.0 * (guess * guess) && guess * guess <= 4.0 * x
    ensures 16.0 * FirstExcess(x, guess) <= 9.0 * x
  {
    var y, t := x / guess, Improve(x, guess);
    assert y * guess == x && t == (y + guess) * 0.5;
    assert guess * (4.0 * y - guess) == 4.0 * x - guess * guess;
    OtherFactor(guess, 4.0 * y - guess);
    assert guess * (2.0 * guess - y) == 2.0 * (guess * guess) - x;
    OtherFactor(guess, 2.0 * guess - y);
    FirstExcessIs(x, guess, y);
    SquareOfGap(guess, y);
  }

  lemma FirstExcessIs(x: real, guess: real, y: real)
    requires guess > 0.0 && y == x / guess
    ensures 4.0 * FirstExcess(x, guess) == (guess - y) * (guess - y)
  {
    var t := Improve(x, guess);
    assert y * guess == x && t == (y + guess) * 0.5;
    assert 4.0 * (t * t) == (y + guess) * (y + guess);
  }

  /** Of two numbers, neither of which is too large beside the other, the square of the difference against the product. */
  lemma SquareOfGap(a: real, b: real)
    requires 0.0 < a <= 4.0 * b && b <= 2.0 * a
    ensures 4.0 * ((a - b) * (a - b)) <= 9.0 * (b * a)
  {
    assert (4.0 * b - a) * (4.0 * a - b) >= 0.0;
    assert (4.0 * b - a) * (4.0 * a - b) == 17.0 * (b * a) - 4.0 * (a * a) - 4.0 * (b * b);
  }

  /** On or above the root, with at most 4^-n of the first excess left. */
  ghost predicate Close(x: real, guess: real, z: real, n: nat)
    requires guess > 0.0
  {
    z > 0.0 && z * z >= x && FourTo(n) * (z * z - x) <= FirstExcess(x, guess)
  }

  lemma FirstIsClose(x: real, guess: real)
    requires x > 0.0 && guess > 0.0
    ensures Close(x, guess, Improve(x, guess), 0) && FirstExcess(x, guess) >= 0.0
    ensures guess * guess >= x ==> Improve(x, guess) <= guess
  {
    ImproveIsAbove(x, guess);
  }

  lemma NextIsCloser(x: real, guess: real, z: real, n: nat)
    requires x > 0.0 && guess > 0.0 && Close(x, guess, z, n)
    ensures Close(x, guess, Improve(x, z), n + 1) && Improve(x, z) <= z
  {
    var t := Improve(x, z);
    ImproveIsAbove(x, z);
    ImproveQuarters(x, z);
    ExcessShrinks(n, z * z - x, t * t - x, FirstExcess(x, guess));
  }

  /** A step that changes nothing has reached the root. */
  lemma FixedIsRoot(x: real, guess: real, z: real)
    requires x > 0.0 && guess > 0.0 && z > 0.0 && Improve(x, z) == z
    ensures Close(x, guess, z, 99)
  {
    var y := x / z;
    assert y * z == x && y == z;
    FirstIsClose(x, guess);
    assert FourTo(99) * (z * z - x) == 0.0;
  }

  /** In exact arithmetic the steps never go back and forth between two guesses. */
  lemma NoOscillation(x: real, guess: real, t: real)
    requires x > 0.0 && guess > 0.0 && t == Improve(x, Improve(x, guess))
    ensures t == guess ==> t == Improve(x, guess)
  {
    var z := Improve(x, guess);
    ImproveIsAbove(x, guess);
    ImproveIsAbove(x, z);
  }

  /**
   * At most a hundred Newton steps from a positive guess; it stops early once a step changes nothing. The square of the
   * result is x or exceeds it, by no more than 4^-99 of what it did after the first step.
   */
  method Sqrt(x: real, guess: real) returns (z: real)
    requires guess > 0.0
    ensures x <= 0.0 ==> z == 0.0
    ensures x > 0.0 ==> Close(x, guess, z, 99)
    ensures x > 0.0 && guess * guess >= x ==> z <= guess
  {
    if x <= 0.0 {
      return 0.0;
    }
    hide Close, FourTo, FirstExcess;
    z := guess;
    var prev := 0.0;
    var i := 0;
    while i < 100
      invariant z > 0.0 && 0 <= i <= 100
      invariant i == 0 ==> z == guess && prev == 0.0
      invariant i > 0 ==> Close(x, guess, z, i - 1) && prev > 0.0 && z == Improve(x, prev)
      invariant i == 1 ==> prev == guess
      invariant i > 1 ==> z <= prev
      invariant guess * guess >= x ==> z <= guess
    {
      var t := (x / z + z) * 0.5;
      assert t == Improve(x, z);
      if t == z {
        FixedIsRoot(x, guess, z);
        break;
      }
      if i == 0 {
        FirstIsClose(x, guess);
      } else {
        NextIsCloser(x, guess, z, i - 1);
        NoOscillation(x, prev, t);
      }
      if prev > 0.0 && t == prev {
        return if z < t then z else t;
      }
      prev, z := z, t;
      i := i + 1;
    }
  }

  // ----- the formulas -----

  /** The amount of token1 that goes with so much of token0 at the pool's price. */
  function Needed(p: Pool, amount0: real): real
    requires p.reserve0 != 0.0
  {
    amount0 * p.reserve1 / p.reserve0
  }

  function Minted(p: Pool, amount0: real): real
    requires p.reserve0 != 0.0
  {
    amount0 * p.shares / p.reserve0
  }

  /** The part of a reserve that so many shares stand for. */
  function PartOf(p: Pool, reserve: real, shares: real): real
    requires p.shares != 0.0
  {
    shares * reserve / p.shares
  }

  /** What of token1 goes in beside amount0, and the shares minted; the first deposit mints the given root. */
  function AddLiquidity(p: Pool, amount0: real, amount1: real, root: real): (r: (real, real))
    requires p.shares != 0.0 ==> p.reserve0 != 0.0
  {
    if p.shares == 0.0 then (amount1, root)
    else
      (if amount1 > Needed(p, amount0) then Needed(p, amount0) else amount1, Minted(p, amount0))
  }

  function RemoveLiquidity(p: Pool, shares: real): Option<(real, real)> {
    if shares <= 0.0 || p.shares == 0.0 || shares > p.shares then None
    else Some((PartOf(p, p.reserve0, shares), PartOf(p, p.reserve1, shares)))
  }

  /** The output, the fee, and the input less the fee. */
  function QuoteSwap(p: Pool, zeroForOne: bool, amountIn: real): Option<(real, real, real)> {
    var (rin, rout) := if zeroForOne then (p.reserve0, p.reserve1) else (p.reserve1, p.reserve0);
    if amountIn <= 0.0 || !p.active || rin <= 0.0 || rout <= 0.0 then None
    else
      var net := Net(amountIn, p.feeRate);
      Some((Output(rin, rout, net), amountIn * p.feeRate, net))
  }

  function Net(amountIn: real, feeRate: FeeRate): (net: real)
    requires amountIn > 0.0
    ensures net > 0.0
  {
    NetIsPositive(amountIn, feeRate);
    amountIn - amountIn * feeRate
  }

  lemma NetIsPositive(amountIn: real, feeRate: FeeRate)
    ensures amountIn > 0.0 ==> amountIn * (1.0 - feeRate) > 0.0
    ensures amountIn > 0.0 ==> amountIn - amountIn * feeRate == amountIn * (1.0 - feeRate)
    ensures amountIn > 0.0 ==> amountIn - amountIn * feeRate > 0.0
  {
  }

  function Output(rin: real, rout: real, net: real): real
    requires rin + net > 0.0
  {
    rout * net / (rin + net)
  }

  /** Only the input less the fee enters the reserves. */
  function ApplySwap(p: Pool, zeroForOne: bool, amountIn: real, amountOut: real): Pool {
    var net := amountIn * (1.0 - p.feeRate);
    if zeroForOne then p.(reserve0 := p.reserve0 + net, reserve1 := p.reserve1 - amountOut)
    else p.(reserve1 := p.reserve1 + net, reserve0 := p.reserve0 - amountOut)
  }

  function Swapped(p: Pool, zeroForOne: bool, amountIn: real): Pool {
    match QuoteSwap(p, zeroForOne, amountIn)
    case None => p
    case Some((out, _, _)) => ApplySwap(p, zeroForOne, amountIn, out)
  }

  predicate Live(p: Pool) {
    p.reserve0 > 0.0 && p.reserve1 > 0.0 && p.active
  }

  // ----- laws of a swap -----

  /** What a swap comes to, from the side it enters on. */
  lemma SwapIs(p: Pool, zeroForOne: bool, amountIn: real)
    requires Live(p) && amountIn > 0.0
    ensures var net := amountIn * (1.0 - p.feeRate);
      && net > 0.0
      && Swapped(p, zeroForOne, amountIn) ==
           if zeroForOne
           then p.(reserve0 := p.reserve0 + net, reserve1 := p.reserve1 - Output(p.reserve0, p.reserve1, net))
           else p.(reserve1 := p.reserve1 + net, reserve0 := p.reserve0 - Output(p.reserve1, p.reserve0, net))
  {
    hide Output;
    NetIsPositive(amountIn, p.feeRate);
    var net := amountIn * (1.0 - p.feeRate);
    assert Net(amountIn, p.feeRate) == net;
  }

  lemma OutputIs(rin: real, rout: real, net: real)
    requires rin > 0.0 && rout > 0.0 && net > 0.0
    ensures 0.0 < Output(rin, rout, net) < rout
    ensures (rin + net) * (rout - Output(rin, rout, net)) == rin * rout
  {
    var d, o := rin + net, Output(rin, rout, net);
    assert o * d == rout * net;
    assert rout * net > 0.0 && rin * rout > 0.0;
    assert d * (rout - o) == d * rout - o * d;
    assert d * rout == rin * rout + net * rout;
    PositiveFactor(o, d);
    PositiveFactor(rout - o, d);
  }

  lemma PositiveFactor(x: real, d: real)
    ensures d > 0.0 ==> (d * x > 0.0 <==> x > 0.0)
    ensures d > 0.0 ==> (d * x == 0.0 <==> x == 0.0)
  {
  }

  /** A swap keeps the product of the reserves exactly, and both positive. */
  lemma SwapKeepsProduct(p: Pool, zeroForOne: bool, amountIn: real)
    requires Live(p) && amountIn > 0.0
    ensures var q := Swapped(p, zeroForOne, amountIn);
      Live(q) && q.reserve0 * q.reserve1 == p.reserve0 * p.reserve1
  {
    hide Swapped, Output;
    SwapIs(p, zeroForOne, amountIn);
    var net := amountIn * (1.0 - p.feeRate);
    if zeroForOne {
      OutputIs(p.reserve0, p.reserve1, net);
    } else {
      OutputIs(p.reserve1, p.reserve0, net);
    }
  }

  function Out(p: Pool, zeroForOne: bool, amountIn: real): real {
    if zeroForOne then p.reserve1 - Swapped(p, zeroForOne, amountIn).reserve1
    else p.reserve0 - Swapped(p, zeroForOne, amountIn).reserve0
  }

  lemma EqualFactors(a: real, x: real, y: real)
    ensures a > 0.0 && a * x == a * y ==> x == y
  {
  }

  /** The reserve a swap takes in grows by the input less the fee; the product then fixes the other. */
  lemma SwapReserves(p: Pool, zeroForOne: bool, amountIn: real)
    requires Live(p) && amountIn > 0.0
    ensures var q := Swapped(p, zeroForOne, amountIn);
      && (zeroForOne ==> q.reserve0 == p.reserve0 + amountIn * (1.0 - p.feeRate))
      && (!zeroForOne ==> q.reserve1 == p.reserve1 + amountIn * (1.0 - p.feeRate))
      && q.feeRate == p.feeRate && q.shares == p.shares && q.active == p.active
  {
    hide Swapped, Output;
    SwapIs(p, zeroForOne, amountIn);
  }

  /** Splitting a swap into two in a row changes neither the pool it ends in nor the total output. */
  lemma SplitSwapIsSame(p: Pool, zeroForOne: bool, a: real, b: real)
    requires Live(p) && a > 0.0 && b > 0.0
    ensures Swapped(Swapped(p, zeroForOne, a), zeroForOne, b) == Swapped(p, zeroForOne, a + b)
    ensures Out(p, zeroForOne, a) + Out(Swapped(p, zeroForOne, a), zeroForOne, b) == Out(p, zeroForOne, a + b)
  {
    hide Swapped;
    var m, n := Swapped(p, zeroForOne, a), Swapped(p, zeroForOne, a + b);
    SwapKeepsProduct(p, zeroForOne, a);
    SwapKeepsProduct(m, zeroForOne, b);
    SwapKeepsProduct(p, zeroForOne, a + b);
    SwapReserves(p, zeroForOne, a);
    SwapReserves(m, zeroForOne, b);
    SwapReserves(p, zeroForOne, a + b);
    var q := Swapped(m, zeroForOne, b);
    var f := 1.0 - p.feeRate;
    assert (a + b) * f == a * f + b * f;
    if zeroForOne {
      EqualFactors(n.reserve0, q.reserve1, n.reserve1);
    } else {
      EqualFactors(n.reserve1, q.reserve0, n.reserve0);
    }
  }

  /** Swapping and swapping the output back never gains, and loses nothing exactly when there is no fee. */
  lemma RoundTripNeverGains(p: Pool, a: real)
    requires Live(p) && a > 0.0
    ensures var mid := Swapped(p, true, a);
      var back := Out(mid, false, Out(p, true, a));
      back <= a && (back == a <==> p.feeRate == 0.0)
  {
    hide Swapped;
    var mid := Swapped(p, true, a);
    var f := 1.0 - p.feeRate;
    SwapKeepsProduct(p, true, a);
    SwapReserves(p, true, a);
    assert a * f > 0.0;
    var o := Out(p, true, a);
    OutIsPositive(p, a);
    SwapKeepsProduct(mid, false, o);
    SwapReserves(mid, false, o);
    var q := Swapped(mid, false, o);
    BackWithin(p, q, o, f);
    assert a * f <= a && (a * f == a <==> f == 1.0);
  }

  lemma OutIsPositive(p: Pool, a: real)
    requires Live(p) && a > 0.0
    ensures Out(p, true, a) > 0.0
  {
    hide Swapped, Output;
    var net := a * (1.0 - p.feeRate);
    SwapIs(p, true, a);
    OutputIs(p.reserve0, p.reserve1, net);
  }

  /** Putting back no more than came out leaves the first reserve no smaller than it was. */
  lemma BackWithin(p: Pool, q: Pool, o: real, f: real)
    requires Live(p) && Live(q) && o > 0.0 && 0.0 < f <= 1.0
    requires q.reserve0 * q.reserve1 == p.reserve0 * p.reserve1 && q.reserve1 == p.reserve1 - o + o * f
    ensures q.reserve0 >= p.reserve0 && (q.reserve0 == p.reserve0 <==> f == 1.0)
  {
    var gap := o * (1.0 - f);
    PositiveFactor(1.0 - f, o);
    assert p.reserve1 - q.reserve1 == gap;
    assert q.reserve1 * (q.reserve0 - p.reserve0) == p.reserve0 * gap;
    PositiveFactor(gap, p.reserve0);
    PositiveFactor(q.reserve0 - p.reserve0, q.reserve1);
  }

  // ----- laws of a deposit -----

  function Deposited(p: Pool, amount0: real, amount1: real): Pool
    requires p.shares != 0.0 ==> p.reserve0 != 0.0
  {
    var (in1, minted) := AddLiquidity(p, amount0, amount1, 0.0);
    p.(reserve0 := p.reserve0 + amount0, reserve1 := p.reserve1 + in1, shares := p.shares + minted)
  }

  /**
   * A later deposit always keeps what a share is worth in token0. It keeps what a share is worth in token1 exactly when
   * it brings the proportional amount of it: shares are minted from token0 alone, and a deposit short of token1 dilutes.
   */
  lemma DepositKeepsShareValueIff(p: Pool, amount0: real, amount1: real)
    requires Live(p) && p.shares > 0.0 && amount0 > 0.0 && amount1 > 0.0
    ensures var q := Deposited(p, amount0, amount1);
      && q.reserve0 * p.shares == p.reserve0 * q.shares
      && (q.reserve1 * p.shares >= p.reserve1 * q.shares <==> amount1 >= Needed(p, amount0))
  {
    var q := Deposited(p, amount0, amount1);
    var needed := Needed(p, amount0);
    var minted := Minted(p, amount0);
    assert minted * p.reserve0 == amount0 * p.shares;
    assert needed * p.reserve0 == amount0 * p.reserve1;
    assert needed * p.shares == p.reserve1 * minted by {
      EqualFactors(p.reserve0, needed * p.shares, p.reserve1 * minted);
    }
    var in1 := q.reserve1 - p.reserve1;
    assert q.reserve1 * p.shares - p.reserve1 * q.shares == (in1 - needed) * p.shares;
    if amount1 < needed {
      assert (in1 - needed) * p.shares < 0.0;
    }
  }

  /** Redeeming shares leaves what every other share is worth in both tokens. */
  lemma RedeemKeepsShareValue(p: Pool, shares: real)
    ensures RemoveLiquidity(p, shares).Some? <==> 0.0 < shares <= p.shares
    ensures RemoveLiquidity(p, shares).Some? ==>
      var (out0, out1) := RemoveLiquidity(p, shares).value;
      && (p.reserve0 - out0) * p.shares == p.reserve0 * (p.shares - shares)
      && (p.reserve1 - out1) * p.shares == p.reserve1 * (p.shares - shares)
  {
    if RemoveLiquidity(p, shares).Some? {
      var (out0, out1) := RemoveLiquidity(p, shares).value;
      assert out0 * p.shares == shares * p.reserve0 && out1 * p.shares == shares * p.reserve1;
    }
  }
}
