/**
 * Numeric user IDs: sequence values scrambled by a balanced Feistel network with cycle walking. Machine words
 * are naturals; shifts and masks are quotients and remainders by powers of two, wrap-around is written out.
 */
module UidScrambler {
  import opened Arithmetic
  import opened CycleWalking

  const ROUNDS: nat := 8
  const WORD: nat := 0x1_0000_0000_0000_0000
  const KEYS: seq<nat> := [
    0x9E3779B97F4A7C15, 0xC2B2AE3D27D4EB4F, 0x165667B19E3779F9, 0x27D4EB2F165667C5,
    0xF7A35C81D836AC1F, 0x6C62272E07BB0142, 0xB0757B27E8DFA5A2, 0x3FC7E91B52AC104D]

  // ----- exclusive or and powers of two -----

  /** Bitwise exclusive or of two naturals. */
  function Xor(a: nat, b: nat): nat {
    if a == 0 && b == 0 then 0 else 2 * Xor(a / 2, b / 2) + (a + b) % 2
  }

  lemma {:induction false} XorIsBounded(a: nat, b: nat, n: nat)
    requires a < Pow2(n) && b < Pow2(n)
    ensures Xor(a, b) < Pow2(n)
  {
    if n > 0 {
      XorIsBounded(a / 2, b / 2, n - 1);
    }
  }

  lemma XorHalves(a: nat, b: nat)
    ensures Xor(a, b) / 2 == Xor(a / 2, b / 2) && Xor(a, b) % 2 == (a + b) % 2
  {
  }

  lemma BitCancels(a: nat, b: nat, x: nat)
    ensures x % 2 == (a + b) % 2 ==> (x + b) % 2 == a % 2
  {
  }

  lemma HalvesTell(a: nat, b: nat)
    ensures a / 2 == b / 2 && a % 2 == b % 2 ==> a == b
  {
  }

  lemma {:induction false} XorCancels(a: nat, b: nat)
    ensures Xor(Xor(a, b), b) == a
  {
    if a != 0 || b != 0 {
      hide Xor;
      var x := Xor(a, b);
      XorCancels(a / 2, b / 2);
      XorHalves(a, b);
      XorHalves(x, b);
      BitCancels(a, b, x);
      HalvesTell(Xor(x, b), a);
    }
  }

  /** The low bits. */
  function Mask(x: nat, bits: nat): (m: nat)
    ensures m < Pow2(bits)
  {
    x % Pow2(bits)
  }

  lemma MaskOfSmall(x: nat, bits: nat)
    requires x < Pow2(bits)
    ensures Mask(x, bits) == x
  {
    DivMod(0, x, Pow2(bits));
  }

  // ----- the network, for any round function -----

  datatype Halves = Halves(l: nat, r: nat)

  /** The round function yields half-block values, as the mask at its end makes it. */
  ghost predicate Masked(f: (nat, nat) -> nat, halfBits: nat) {
    forall x: nat, i: nat :: f(x, i) < Pow2(halfBits)
  }

  /** The two halves after n rounds. */
  function Rounds(f: (nat, nat) -> nat, halfBits: nat, h: Halves, n: nat): Halves {
    if n == 0 then h
    else var g := Rounds(f, halfBits, h, n - 1); Halves(g.r, Mask(Xor(g.l, f(g.r, n - 1)), halfBits))
  }

  /** The same rounds undone, last one first. */
  function Unrounds(f: (nat, nat) -> nat, halfBits: nat, h: Halves, n: nat): Halves
    decreases n
  {
    if n == 0 then h
    else Unrounds(f, halfBits, Halves(Mask(Xor(h.r, f(h.l, n - 1)), halfBits), h.l), n - 1)
  }

  predicate Fits(h: Halves, halfBits: nat) {
    h.l < Pow2(halfBits) && h.r < Pow2(halfBits)
  }

  lemma OneRoundUndone(f: (nat, nat) -> nat, halfBits: nat, l: nat, r: nat, i: nat)
    requires Masked(f, halfBits) && l < Pow2(halfBits)
    ensures Mask(Xor(Mask(Xor(l, f(r, i)), halfBits), f(r, i)), halfBits) == l
  {
    hide Xor, Mask;
    var k := f(r, i);
    XorIsBounded(l, k, halfBits);
    XorCancels(l, k);
    MaskOfSmall(Xor(l, k), halfBits);
    MaskOfSmall(l, halfBits);
  }

  lemma {:induction false} RoundsFit(f: (nat, nat) -> nat, halfBits: nat, h: Halves, n: nat)
    requires Fits(h, halfBits)
    ensures Fits(Rounds(f, halfBits, h, n), halfBits)
  {
    hide Xor, Mask, Pow2;
    if n > 0 {
      RoundsFit(f, halfBits, h, n - 1);
    }
  }

  lemma {:induction false} UnroundsFit(f: (nat, nat) -> nat, halfBits: nat, h: Halves, n: nat)
    requires Fits(h, halfBits)
    ensures Fits(Unrounds(f, halfBits, h, n), halfBits)
    decreases n
  {
    hide Xor, Mask, Pow2;
    if n > 0 {
      UnroundsFit(f, halfBits, Halves(Mask(Xor(h.r, f(h.l, n - 1)), halfBits), h.l), n - 1);
    }
  }

  lemma {:induction false} UnroundsUndoRounds(f: (nat, nat) -> nat, halfBits: nat, h: Halves, n: nat)
    requires Masked(f, halfBits) && Fits(h, halfBits)
    ensures Unrounds(f, halfBits, Rounds(f, halfBits, h, n), n) == h
  {
    hide Xor, Mask, Pow2;
    if n > 0 {
      var g := Rounds(f, halfBits, h, n - 1);
      RoundsFit(f, halfBits, h, n - 1);
      OneRoundUndone(f, halfBits, g.l, g.r, n - 1);
      UnroundsUndoRounds(f, halfBits, h, n - 1);
    }
  }

  lemma {:induction false} RoundsUndoUnrounds(f: (nat, nat) -> nat, halfBits: nat, h: Halves, n: nat)
    requires Masked(f, halfBits) && Fits(h, halfBits)
    ensures Rounds(f, halfBits, Unrounds(f, halfBits, h, n), n) == h
    decreases n
  {
    hide Xor, Mask, Pow2;
    if n > 0 {
      var g := Halves(Mask(Xor(h.r, f(h.l, n - 1)), halfBits), h.l);
      OneRoundUndone(f, halfBits, h.r, h.l, n - 1);
      RoundsUndoUnrounds(f, halfBits, g, n - 1);
    }
  }

  // ----- the block permutation -----

  function Split(v: nat, halfBits: nat): Halves {
    Halves(Mask(Quotient(v, Pow2(halfBits)), halfBits), Mask(v, halfBits))
  }

  function Join(high: nat, low: nat, halfBits: nat): nat {
    high * Pow2(halfBits) + low
  }

  /** The halves are joined the other way round, which undoes the last swap. */
  function Permute(f: (nat, nat) -> nat, halfBits: nat, v: nat): nat {
    var h := Rounds(f, halfBits, Split(v, halfBits), ROUNDS);
    Join(h.r, h.l, halfBits)
  }

  function Unpermute(f: (nat, nat) -> nat, halfBits: nat, w: nat): nat {
    var s := Split(w, halfBits);
    var h := Unrounds(f, halfBits, Halves(s.r, s.l), ROUNDS);
    Join(h.l, h.r, halfBits)
  }

  function Block(halfBits: nat): nat {
    Pow2(halfBits) * Pow2(halfBits)
  }

  lemma JoinThenSplit(high: nat, low: nat, halfBits: nat)
    requires high < Pow2(halfBits) && low < Pow2(halfBits)
    ensures Join(high, low, halfBits) < Block(halfBits)
    ensures Split(Join(high, low, halfBits), halfBits) == Halves(high, low)
  {
    hide Pow2;
    var m := Pow2(halfBits);
    JoinBound(high, low, m);
    DivMod(high, low, m);
    MaskOfSmall(high, halfBits);
    MaskIsRemainder(Join(high, low, halfBits), halfBits);
    hide Mask;
  }

  lemma MaskIsRemainder(x: nat, bits: nat)
    ensures Mask(x, bits) == x % Pow2(bits)
  {
  }

  lemma JoinBound(high: nat, low: nat, m: nat)
    requires high < m && low < m
    ensures high * m + low < m * m
  {
    MultipleIsOutside(m - high, m);
    assert (m - high) * m == m * m - high * m;
  }

  lemma SplitThenJoin(v: nat, halfBits: nat)
    requires v < Block(halfBits)
    ensures Fits(Split(v, halfBits), halfBits)
    ensures Join(Split(v, halfBits).l, Split(v, halfBits).r, halfBits) == v
  {
    var m := Pow2(halfBits);
    var q := v / m;
    assert v == q * m + v % m;
    MultipleIsOutside(m - q, m);
    assert (m - q) * m == m * m - q * m;
    MaskOfSmall(q, halfBits);
  }

  /** Whatever the round function, the network is a permutation of the block, with Unpermute as its inverse. */
  lemma PermuteIsBijective(f: (nat, nat) -> nat, halfBits: nat, v: nat)
    requires Masked(f, halfBits) && v < Block(halfBits)
    ensures Permute(f, halfBits, v) < Block(halfBits) && Unpermute(f, halfBits, v) < Block(halfBits)
    ensures Unpermute(f, halfBits, Permute(f, halfBits, v)) == v
    ensures Permute(f, halfBits, Unpermute(f, halfBits, v)) == v
  {
    hide Rounds, Unrounds, Join, Split, Block, Pow2, Xor;
    SplitThenJoin(v, halfBits);
    var s := Split(v, halfBits);
    var h := Rounds(f, halfBits, s, ROUNDS);
    RoundsFit(f, halfBits, s, ROUNDS);
    JoinThenSplit(h.r, h.l, halfBits);
    UnroundsUndoRounds(f, halfBits, s, ROUNDS);
    var t := Halves(s.r, s.l);
    var g := Unrounds(f, halfBits, t, ROUNDS);
    UnroundsFit(f, halfBits, t, ROUNDS);
    JoinThenSplit(g.l, g.r, halfBits);
    RoundsUndoUnrounds(f, halfBits, t, ROUNDS);
  }

  function Forward(f: (nat, nat) -> nat, halfBits: nat): nat -> nat {
    v => Permute(f, halfBits, v)
  }

  function Backward(f: (nat, nat) -> nat, halfBits: nat): nat -> nat {
    v => Unpermute(f, halfBits, v)
  }

  lemma PermutationOfBlock(f: (nat, nat) -> nat, halfBits: nat)
    requires Masked(f, halfBits)
    ensures Inverse(Forward(f, halfBits), Backward(f, halfBits), Block(halfBits))
  {
    hide Permute, Unpermute, Block, Pow2, Masked;
    forall v: nat | v < Block(halfBits) {
      PermuteIsBijective(f, halfBits, v);
    }
  }

  // ----- the built-in rounds, and the walk over a digit domain -----

  function Key(i: nat): nat {
    KEYS[i % ROUNDS]
  }

  /** The keyed mixer; its value fits one half. */
  function FeistelRound(x: nat, round: nat, halfBits: nat): nat {
    var h0 := (x * Key(round) + Key(round + 3)) % WORD;
    var h1 := Xor(h0, h0 / 0x2_0000_0000);
    var h2 := h1 * 0xFF51AFD7ED558CCD % WORD;
    Mask(Xor(h2, h2 / 0x2_0000_0000), halfBits)
  }

  function BuiltIn(halfBits: nat): (nat, nat) -> nat {
    (x, i) => FeistelRound(x, i, halfBits)
  }

  lemma BuiltInIsPermutation(halfBits: nat)
    ensures Inverse(Forward(BuiltIn(halfBits), halfBits), Backward(BuiltIn(halfBits), halfBits), Block(halfBits))
  {
    PermutationOfBlock(BuiltIn(halfBits), halfBits);
  }

  method FeistelPermute(v: nat, halfBits: nat) returns (w: nat)
    ensures w == Forward(BuiltIn(halfBits), halfBits)(v)
  {
    var start := Split(v, halfBits);
    var l, r := start.l, start.r;
    for i := 0 to ROUNDS
      invariant Halves(l, r) == Rounds(BuiltIn(halfBits), halfBits, start, i)
    {
      l, r := r, Mask(Xor(l, FeistelRound(r, i, halfBits)), halfBits);
    }
    w := Join(r, l, halfBits);
  }

  /** The step at which the walk from v lands in the domain. */
  ghost function Landing(v: nat, domain: nat, halfBits: nat): (k: nat)
    requires v < domain <= Block(halfBits)
    ensures Lands(Forward(BuiltIn(halfBits), halfBits), v, domain, k)
  {
    LandingExists(v, domain, halfBits);
    var k: nat :| Lands(Forward(BuiltIn(halfBits), halfBits), v, domain, k);
    k
  }

  lemma LandingExists(v: nat, domain: nat, halfBits: nat)
    requires v < domain <= Block(halfBits)
    ensures exists k: nat :: Lands(Forward(BuiltIn(halfBits), halfBits), v, domain, k)
  {
    hide Forward, Backward, Iterate, Lands, Inverse, Block;
    BuiltInIsPermutation(halfBits);
    var k := WalkLands(Forward(BuiltIn(halfBits), halfBits), Backward(BuiltIn(halfBits), halfBits), Block(halfBits), v, domain);
  }

  /** Where it lands. */
  ghost function Walked(v: nat, domain: nat, halfBits: nat): (w: nat)
    requires v < domain <= Block(halfBits)
    ensures w < domain
  {
    Iterate(Forward(BuiltIn(halfBits), halfBits), v, Landing(v, domain, halfBits))
  }

  /** The loop ends from every start inside the domain. */
  method FeistelCycleWalk(v: nat, domain: nat, halfBits: nat) returns (w: nat)
    requires v < domain <= Block(halfBits)
    ensures w == Walked(v, domain, halfBits)
  {
    hide Forward, Block;
    ghost var p := Forward(BuiltIn(halfBits), halfBits);
    ghost var landing := Landing(v, domain, halfBits);
    ghost var k := 0;
    w := v;
    while true
      invariant k < landing && w == Iterate(p, v, k)
      decreases landing - k
    {
      w := FeistelPermute(w, halfBits);
      k := k + 1;
      assert w == Iterate(p, v, k);
      if w < domain {
        return;
      }
    }
  }

  /** Distinct starts land on distinct values. */
  lemma WalkedIsInjective(a: nat, b: nat, domain: nat, halfBits: nat)
    requires a < domain <= Block(halfBits) && b < domain
    requires Walked(a, domain, halfBits) == Walked(b, domain, halfBits)
    ensures a == b
  {
    hide Forward, Backward, Iterate, Lands, Inverse, Block;
    BuiltInIsPermutation(halfBits);
    WalkIsInjective(Forward(BuiltIn(halfBits), halfBits), Backward(BuiltIn(halfBits), halfBits), Block(halfBits), domain,
                    a, Landing(a, domain, halfBits), b, Landing(b, domain, halfBits));
  }

  /** Every value of the domain is landed on. */
  lemma WalkedIsOnto(w: nat, domain: nat, halfBits: nat) returns (v: nat)
    requires w < domain <= Block(halfBits)
    ensures v < domain && Walked(v, domain, halfBits) == w
  {
    hide Forward, Backward, Iterate, Lands, Inverse, Block;
    BuiltInIsPermutation(halfBits);
    var p, q := Forward(BuiltIn(halfBits), halfBits), Backward(BuiltIn(halfBits), halfBits);
    var k;
    v, k := WalkIsOnto(p, q, Block(halfBits), domain, w);
    LandsOnce(p, v, domain, k, Landing(v, domain, halfBits));
  }

  // ----- digit domains -----

  const SEQ_START: int := 100_000_000
  const DOMAIN_9: int := 900_000_000
  const DOMAIN_10: int := 9_000_000_000
  const DOMAIN_11: int := 90_000_000_000

  datatype Scrambled = Uid(value: nat) | BelowStart | Exhausted

  /** The 64-bit signed value of an integer, as subtraction of machine integers leaves it. */
  function Int64(x: int): int {
    if x < -0x8000_0000_0000_0000 then x + WORD else x
  }

  function HalfBits(digits: nat): nat {
    if digits == 9 then 15 else if digits == 10 then 17 else 19
  }

  function Domain(digits: nat): nat {
    if digits == 9 then DOMAIN_9 else if digits == 10 then DOMAIN_10 else DOMAIN_11
  }

  lemma DomainFitsBlock(digits: nat)
    ensures Domain(digits) <= Block(HalfBits(digits))
  {
    assert Pow2(15) == 0x8000;
    assert Pow2(17) == 0x2_0000;
    assert Pow2(19) == 0x8_0000;
  }

  /** The digit count, and the offset into its domain, of an index into the whole sequence. */
  function Place(idx: nat): (p: (nat, nat))
    requires idx < DOMAIN_9 + DOMAIN_10 + DOMAIN_11
    ensures p.1 < Domain(p.0)
  {
    if idx < DOMAIN_9 then (9, idx)
    else if idx < DOMAIN_9 + DOMAIN_10 then (10, idx - DOMAIN_9)
    else (11, idx - DOMAIN_9 - DOMAIN_10)
  }

  /** The least number with that many digits. */
  function Shift(digits: nat): nat {
    if digits == 9 then 100_000_000 else if digits == 10 then 1_000_000_000 else 10_000_000_000
  }

  /** The sequence value is one the scrambler accepts. */
  predicate Accepted(n: int) {
    SEQ_START <= n < SEQ_START + DOMAIN_9 + DOMAIN_10 + DOMAIN_11
  }

  ghost function UidOf(n: int): nat
    requires Accepted(n)
  {
    var (digits, offset) := Place(n - SEQ_START);
    DomainFitsBlock(digits);
    Walked(offset, Domain(digits), HalfBits(digits)) + Shift(digits)
  }

  method ScrambleUID(number: int) returns (r: Scrambled)
    requires -0x8000_0000_0000_0000 <= number < 0x8000_0000_0000_0000
    ensures r.Uid? <==> Accepted(number)
    ensures r.Uid? ==> r.value == UidOf(number)
  {
    hide Walked, Block;
    var idx := Int64(number - SEQ_START);
    if idx < 0 {
      return BelowStart;
    }
    var digits;
    if idx < DOMAIN_9 {
      digits := 9;
    } else if idx < DOMAIN_9 + DOMAIN_10 {
      digits := 10;
      idx := idx - DOMAIN_9;
    } else {
      idx := idx - (DOMAIN_9 + DOMAIN_10);
      if idx >= DOMAIN_11 {
        return Exhausted;
      }
      digits := 11;
    }
    DomainFitsBlock(digits);
    var scrambled := FeistelCycleWalk(idx, Domain(digits), HalfBits(digits));
    var shift := 100_000_000;
    if digits == 10 {
      shift := 1_000_000_000;
    } else if digits == 11 {
      shift := 10_000_000_000;
    }
    r := Uid(scrambled + shift);
  }

  /** The first 9e8 values get 9 digits, the next 9e9 get 10 and the last 9e10 get 11. */
  lemma UidHasItsDigits(n: int)
    requires Accepted(n)
    ensures n < SEQ_START + DOMAIN_9 ==> 100_000_000 <= UidOf(n) < 1_000_000_000
    ensures SEQ_START + DOMAIN_9 <= n < SEQ_START + DOMAIN_9 + DOMAIN_10 ==> 1_000_000_000 <= UidOf(n) < 10_000_000_000
    ensures SEQ_START + DOMAIN_9 + DOMAIN_10 <= n ==> 10_000_000_000 <= UidOf(n) < 100_000_000_000
  {
    hide Walked, Block;
    var (digits, offset) := Place(n - SEQ_START);
    DomainFitsBlock(digits);
    assert Walked(offset, Domain(digits), HalfBits(digits)) < Domain(digits);
  }

  /** No two sequence values ever get the same user ID. */
  lemma UidsNeverCollide(a: int, b: int)
    requires Accepted(a) && Accepted(b) && UidOf(a) == UidOf(b)
    ensures a == b
  {
    hide Walked, Block;
    UidHasItsDigits(a);
    UidHasItsDigits(b);
    var (digits, i) := Place(a - SEQ_START);
    var (other, j) := Place(b - SEQ_START);
    assert digits == other;
    DomainFitsBlock(digits);
    WalkedIsInjective(i, j, Domain(digits), HalfBits(digits));
  }

  /** Every number of 9, 10 or 11 digits is some sequence value's user ID. */
  lemma EveryUidIsIssued(uid: nat) returns (n: int)
    requires 100_000_000 <= uid < 100_000_000_000
    ensures Accepted(n) && UidOf(n) == uid
  {
    hide Walked, Block;
    var digits := if uid < 1_000_000_000 then 9 else if uid < 10_000_000_000 then 10 else 11;
    DomainFitsBlock(digits);
    var offset := WalkedIsOnto(uid - Shift(digits), Domain(digits), HalfBits(digits));
    n := SEQ_START + offset + (if digits == 9 then 0 else if digits == 10 then DOMAIN_9 else DOMAIN_9 + DOMAIN_10);
    assert Place(n - SEQ_START) == (digits, offset);
  }
}
