/**
 * The Bech32 checksum of BIP-173, section "Bech32", part "Checksum". The state is 30 bits wide, a symbol 5; each step
 * shifts one symbol in and folds the five bits shifted out back with the generator coefficients.
 */
module Bech32Checksum {
  /** The generator coefficient of one shifted-out bit. */
  function Gen(i: bv6): bv32 {
    if i == 0 then 0x3b6a57b2
    else if i == 1 then 0x26508e6d
    else if i == 2 then 0x1ea119fa
    else if i == 3 then 0x3d4233dd
    else 0x2a1462b3
  }

  function Xor(a: bv32, b: bv32): bv32 {
    a ^ b
  }

  function Top(chk: bv32): bv32 {
    chk >> 25
  }

  function Shifted(chk: bv32): bv32 {
    (chk & 0x1ff_ffff) << 5
  }

  function Term(b: bv32, i: bv6): bv32
    requires i < 5
  {
    if (b >> i) & 1 == 1 then Gen(i) else 0
  }

  /** The coefficients of the bits of b below i, added up. */
  function Fold(b: bv32, i: bv6): bv32
    requires i <= 5
    decreases i
  {
    if i == 0 then 0 else Xor(Fold(b, i - 1), Term(b, i - 1))
  }

  function Step(chk: bv32, v: bv32): bv32 {
    Xor(Xor(Shifted(chk), v), Fold(Top(chk), 5))
  }

  function Steps(chk: bv32, s: seq<bv32>): bv32 {
    if s == [] then chk else Step(Steps(chk, s[..|s| - 1]), s[|s| - 1])
  }

  method Polymod(values: seq<bv32>) returns (chk: bv32)
    ensures chk == Steps(1, values)
  {
    hide Fold, Term, Gen, Xor, Top, Shifted;
    chk := 1;
    for n := 0 to |values|
      invariant chk == Steps(1, values[..n])
    {
      var before := chk;
      chk := StepInPlace(before, values[n]);
      assert values[..n + 1][..n] == values[..n];
    }
    assert values[..|values|] == values;
  }

  /** The body of the outer loop. */
  method StepInPlace(before: bv32, v: bv32) returns (chk: bv32)
    ensures chk == Step(before, v)
  {
    hide Term, Gen, Xor;
    var b := before >> 25;
    var shifted := Xor((before & 0x1ff_ffff) << 5, v);
    chk := shifted;
    XorZero(shifted);
    var i: bv6 := 0;
    while i < 5
      invariant i <= 5 && chk == Xor(shifted, Fold(b, i))
      decreases 5 - i
    {
      XorAssociates(shifted, Fold(b, i), Term(b, i));
      if TestBit(b, i) {
        chk := Xor(chk, Gen(i));
      } else {
        XorZero(chk);
      }
      TermIs(b, i);
      i := i + 1;
    }
  }

  predicate TestBit(b: bv32, i: bv6)
    requires i < 5
  {
    (b >> i) & 1 == 1
  }

  lemma TermIs(b: bv32, i: bv6)
    ensures i < 5 ==> (Term(b, i) == if TestBit(b, i) then Gen(i) else 0)
  {
  }

  lemma XorZero(a: bv32)
    ensures Xor(a, 0) == a && Xor(0, a) == a
  {
  }

  lemma XorAssociates(a: bv32, b: bv32, c: bv32)
    ensures Xor(Xor(a, b), c) == Xor(a, Xor(b, c))
  {
  }

  lemma XorCommutes(a: bv32, b: bv32)
    ensures Xor(a, b) == Xor(b, a)
  {
  }

  lemma XorSwap(a: bv32, b: bv32, c: bv32, d: bv32)
    ensures Xor(Xor(a, b), Xor(c, d)) == Xor(Xor(a, c), Xor(b, d))
  {
    hide Xor;
    XorAssociates(a, b, Xor(c, d));
    XorAssociates(b, c, d);
    XorCommutes(b, c);
    XorAssociates(c, b, d);
    XorAssociates(a, c, Xor(b, d));
  }

  // ----- the step is linear, and injective -----

  lemma TermIsLinear(a: bv32, b: bv32, i: bv6)
    requires i < 5
    ensures Term(Xor(a, b), i) == Xor(Term(a, i), Term(b, i))
  {
    hide Gen, Xor;
    BitIsLinear(a, b, i);
    XorWith(Gen(i));
  }

  lemma BitIsLinear(a: bv32, b: bv32, i: bv6)
    requires i < 5
    ensures (Xor(a, b) >> i) & 1 == 1 <==> ((a >> i) & 1 == 1) != ((b >> i) & 1 == 1)
  {
    if i == 0 { BitOfXor(a, b, 0); } else if i == 1 { BitOfXor(a, b, 1); } else if i == 2 { BitOfXor(a, b, 2); }
    else if i == 3 { BitOfXor(a, b, 3); } else { BitOfXor(a, b, 4); }
  }

  lemma BitOfXor(a: bv32, b: bv32, i: bv6)
    requires i < 5
    ensures ((a ^ b) >> i) & 1 == ((a >> i) & 1) ^ ((b >> i) & 1)
  {
  }

  lemma XorWith(g: bv32)
    ensures Xor(0, g) == g == Xor(g, 0) && Xor(g, g) == 0 == Xor(0, 0)
  {
  }

  lemma {:induction false} FoldIsLinear(a: bv32, b: bv32, i: bv6)
    requires i <= 5
    ensures Fold(Xor(a, b), i) == Xor(Fold(a, i), Fold(b, i))
    decreases i
  {
    hide Term, Xor;
    if i == 0 {
      XorZero(0);
    } else {
      FoldIsLinear(a, b, i - 1);
      TermIsLinear(a, b, i - 1);
      XorSwap(Fold(a, i - 1), Fold(b, i - 1), Term(a, i - 1), Term(b, i - 1));
    }
  }

  lemma ShiftsAreLinear(a: bv32, b: bv32)
    ensures Shifted(Xor(a, b)) == Xor(Shifted(a), Shifted(b)) && Top(Xor(a, b)) == Xor(Top(a), Top(b))
  {
  }

  lemma StepIsLinear(a: bv32, x: bv32, b: bv32, y: bv32)
    ensures Step(Xor(a, b), Xor(x, y)) == Xor(Step(a, x), Step(b, y))
  {
    hide Xor, Shifted, Top, Fold;
    ShiftsAreLinear(a, b);
    FoldIsLinear(Top(a), Top(b), 5);
    XorSwap(Shifted(a), Shifted(b), x, y);
    XorSwap(Xor(Shifted(a), x), Xor(Shifted(b), y), Fold(Top(a), 5), Fold(Top(b), 5));
  }

  // ----- what a difference between two data parts does to the state -----

  predicate State(chk: bv32) {
    chk < 0x4000_0000
  }

  predicate Symbol(v: bv32) {
    v < 32
  }

  predicate Symbols(s: seq<bv32>) {
    forall i :: 0 <= i < |s| ==> Symbol(s[i])
  }

  /** A difference of two states never dies out while equal symbols follow. */
  lemma StepKeepsDifferent(a: bv32, b: bv32, v: bv32)
    requires State(a) && State(b) && a != b
    ensures Step(a, v) != Step(b, v)
  {
    hide Xor, Shifted, Top, Fold, Step;
    StepIsLinear(a, v, b, v);
    XorSelf(v);
    XorState(a, b);
    XorOfEqual(a, b);
    NonzeroStays(Xor(a, b));
    XorOfEqual(Step(a, v), Step(b, v));
  }

  lemma XorSelf(a: bv32)
    ensures Xor(a, a) == 0
  {
  }

  lemma XorOfEqual(a: bv32, b: bv32)
    ensures Xor(a, b) == 0 <==> a == b
  {
  }

  lemma XorState(a: bv32, b: bv32)
    ensures State(a) && State(b) ==> State(Xor(a, b))
  {
  }

  /** The fold of a nonzero top never has zero in its low five bits: those bits alone tell what was shifted out. */
  lemma NonzeroStays(d: bv32)
    requires State(d) && d != 0
    ensures Step(d, 0) != 0
  {
    FoldOut(Top(d));
  }

  lemma FoldOut(b: bv32)
    ensures Fold(b, 5) == Xor(Xor(Xor(Xor(Term(b, 0), Term(b, 1)), Term(b, 2)), Term(b, 3)), Term(b, 4))
  {
    hide Term, Xor;
    XorZero(Term(b, 0));
    assert Fold(b, 1) == Term(b, 0);
    assert Fold(b, 3) == Xor(Xor(Term(b, 0), Term(b, 1)), Term(b, 2));
  }

  lemma StateStays(a: bv32, v: bv32)
    requires State(a) && Symbol(v)
    ensures State(Step(a, v))
  {
    FoldOut(Top(a));
  }

  lemma {:induction false} StepsStay(chk: bv32, s: seq<bv32>)
    requires State(chk) && Symbols(s)
    ensures State(Steps(chk, s))
  {
    hide Step, State;
    if s != [] {
      StepsStay(chk, s[..|s| - 1]);
      StateStays(Steps(chk, s[..|s| - 1]), s[|s| - 1]);
    }
  }

  lemma {:induction false} StepsKeepDifferent(a: bv32, b: bv32, s: seq<bv32>)
    requires State(a) && State(b) && a != b && Symbols(s)
    ensures Steps(a, s) != Steps(b, s)
  {
    hide Step, State, Symbol;
    if s != [] {
      var front := s[..|s| - 1];
      StepsKeepDifferent(a, b, front);
      StepsStay(a, front);
      StepsStay(b, front);
      StepKeepsDifferent(Steps(a, front), Steps(b, front), s[|s| - 1]);
    }
  }

  lemma {:induction false} StepsConcat(chk: bv32, s: seq<bv32>, t: seq<bv32>)
    ensures Steps(chk, s + t) == Steps(Steps(chk, s), t)
  {
    hide Step;
    if t == [] {
      assert s + t == s;
    } else {
      StepsConcat(chk, s, t[..|t| - 1]);
      assert (s + t)[..|s + t| - 1] == s + t[..|t| - 1];
    }
  }

  /** The difference of two runs from one state: the run from zero over the differences. */
  function Differences(s: seq<bv32>, t: seq<bv32>): (d: seq<bv32>)
    requires |s| == |t|
    ensures |d| == |s|
  {
    seq(|s|, i requires 0 <= i < |s| => Xor(s[i], t[i]))
  }

  lemma {:induction false} StepsDiffer(chk: bv32, s: seq<bv32>, t: seq<bv32>)
    requires |s| == |t|
    ensures Xor(Steps(chk, s), Steps(chk, t)) == Steps(0, Differences(s, t))
  {
    hide Step, Xor;
    if s == [] {
      XorSelf(chk);
    } else {
      var n := |s| - 1;
      StepsDiffer(chk, s[..n], t[..n]);
      assert Differences(s, t)[..n] == Differences(s[..n], t[..n]);
      StepIsLinear(Steps(chk, s[..n]), s[n], Steps(chk, t[..n]), t[n]);
    }
  }

  /** Below 25 bits a step only shifts the symbol in. */
  lemma SmallStep(d: bv32, v: bv32)
    requires d < 0x200_0000 && Symbol(v)
    ensures Step(d, v) == (d << 5) | v
    ensures Step(d, v) == 0 <==> d == 0 && v == 0
  {
    FoldOut(Top(d));
  }

  predicate Below(d: bv32, n: nat) {
    (n == 0 ==> d == 0) && (n == 1 ==> d < 0x20) && (n == 2 ==> d < 0x400) && (n == 3 ==> d < 0x8000)
    && (n == 4 ==> d < 0x10_0000) && (n == 5 ==> d < 0x200_0000)
  }

  lemma BelowNothing()
    ensures Below(0, 0)
  {
  }

  lemma BelowGrows(d: bv32, n: nat, v: bv32)
    requires Below(d, n) && n < 6 && Symbol(v)
    ensures Below(Step(d, v), n + 1)
    ensures Step(d, v) == 0 <==> d == 0 && v == 0
  {
    SmallStep(d, v);
  }

  /** Up to six differences fill the 30 bits without meeting, so they cannot cancel. */
  lemma {:induction false} ShortBurstShows(d: seq<bv32>)
    requires |d| <= 6 && Symbols(d)
    ensures Below(Steps(0, d), |d|)
    ensures Steps(0, d) == 0 <==> forall i :: 0 <= i < |d| ==> d[i] == 0
  {
    hide Step, Below, Symbol;
    if d == [] {
      BelowNothing();
    } else {
      ShortBurstShows(d[..|d| - 1]);
      BelowGrows(Steps(0, d[..|d| - 1]), |d| - 1, d[|d| - 1]);
    }
  }

  lemma XorSymbol(a: bv32, b: bv32)
    ensures Symbol(a) && Symbol(b) ==> Symbol(Xor(a, b))
  {
  }

  /** Two different bursts of at most six symbols lead one state to two different ones. */
  lemma BurstsDiffer(chk: bv32, s: seq<bv32>, t: seq<bv32>)
    requires |s| == |t| <= 6 && s != t && Symbols(s) && Symbols(t)
    ensures Steps(chk, s) != Steps(chk, t)
  {
    hide Steps, Xor;
    StepsDiffer(chk, s, t);
    var d := Differences(s, t);
    forall i | 0 <= i < |d| ensures Symbol(d[i]) && (d[i] == 0 <==> s[i] == t[i]) {
      XorSymbol(s[i], t[i]);
      XorOfEqual(s[i], t[i]);
    }
    ShortBurstShows(d);
    XorOfEqual(Steps(chk, s), Steps(chk, t));
  }

  // ----- addresses -----

  function High(c: bv8): bv32 {
    c as bv32 >> 5
  }

  function Low(c: bv8): bv32 {
    c as bv32 & 31
  }

  /** The human-readable part spread into symbols: the high bits of each character, a zero, the low bits of each. */
  function Expand(hrp: seq<bv8>): seq<bv32> {
    seq(|hrp|, i requires 0 <= i < |hrp| => High(hrp[i])) + [0] + seq(|hrp|, i requires 0 <= i < |hrp| => Low(hrp[i]))
  }

  method VerifyChecksum(hrp: seq<bv8>, data: seq<bv32>) returns (ok: bool)
    ensures ok <==> ChecksumHolds(hrp, data)
  {
    hide Steps, High, Low;
    var expanded: seq<bv32> := [];
    for i := 0 to |hrp|
      invariant expanded == Expand(hrp)[..i]
    {
      expanded := expanded + [High(hrp[i])];
    }
    expanded := expanded + [0];
    for i := 0 to |hrp|
      invariant expanded == Expand(hrp)[..|hrp| + 1 + i]
    {
      expanded := expanded + [Low(hrp[i])];
    }
    expanded := expanded + data;
    assert Expand(hrp)[..2 * |hrp| + 1] == Expand(hrp);
    var chk := Polymod(expanded);
    ok := chk == 1;
  }

  predicate ChecksumHolds(hrp: seq<bv8>, data: seq<bv32>) {
    Steps(1, Expand(hrp) + data) == 1
  }

  lemma CharacterIsSymbols(c: bv8)
    ensures Symbol(High(c)) && Symbol(Low(c)) && Symbol(0)
  {
  }

  lemma ExpandIsSymbols(hrp: seq<bv8>)
    ensures Symbols(Expand(hrp))
  {
    hide Symbol, High, Low;
    forall i | 0 <= i < |Expand(hrp)| ensures Symbol(Expand(hrp)[i]) {
      if i < |hrp| {
        CharacterIsSymbols(hrp[i]);
      } else if i == |hrp| {
        CharacterIsSymbols(0);
      } else {
        CharacterIsSymbols(hrp[i - |hrp| - 1]);
      }
    }
  }

  /** Two data parts of one length that agree outside six consecutive positions never both pass the checksum. */
  lemma BurstIsDetected(hrp: seq<bv8>, a: seq<bv32>, b: seq<bv32>, lo: nat, hi: nat)
    requires Symbols(a) && Symbols(b) && |a| == |b| && a != b
    requires lo <= hi <= |a| && hi - lo <= 6
    requires a[..lo] == b[..lo] && a[hi..] == b[hi..]
    ensures !(ChecksumHolds(hrp, a) && ChecksumHolds(hrp, b))
  {
    hide Steps, Step, Expand, State;
    var front := Expand(hrp) + a[..lo];
    ExpandIsSymbols(hrp);
    InitialState();
    StepsStay(1, front);
    var at := Steps(1, front);
    assert a[lo..hi] != b[lo..hi] by {
      assert a == a[..lo] + a[lo..hi] + a[hi..] && b == b[..lo] + b[lo..hi] + b[hi..];
    }
    BurstsDiffer(at, a[lo..hi], b[lo..hi]);
    StepsStay(at, a[lo..hi]);
    StepsStay(at, b[lo..hi]);
    StepsKeepDifferent(Steps(at, a[lo..hi]), Steps(at, b[lo..hi]), a[hi..]);
    ThreeParts(hrp, a, lo, hi);
    ThreeParts(hrp, b, lo, hi);
  }

  lemma InitialState()
    ensures State(1)
  {
  }

  lemma ThreeParts(hrp: seq<bv8>, a: seq<bv32>, lo: nat, hi: nat)
    requires lo <= hi <= |a|
    ensures Steps(1, Expand(hrp) + a) == Steps(Steps(Steps(1, Expand(hrp) + a[..lo]), a[lo..hi]), a[hi..])
  {
    hide Steps, Expand;
    var front := Expand(hrp) + a[..lo];
    assert Expand(hrp) + a == front + a[lo..hi] + a[hi..];
    StepsConcat(1, front + a[lo..hi], a[hi..]);
    StepsConcat(1, front, a[lo..hi]);
  }

  /** One mistyped symbol is always detected. */
  lemma OneSymbolIsDetected(hrp: seq<bv8>, a: seq<bv32>, i: nat, v: bv32)
    requires Symbols(a) && i < |a| && Symbol(v) && v != a[i] && ChecksumHolds(hrp, a)
    ensures !ChecksumHolds(hrp, a[i := v])
  {
    hide ChecksumHolds, Symbol;
    var b := a[i := v];
    assert b[i] != a[i];
    BurstIsDetected(hrp, a, b, i, i + 1);
  }

  /** So is an exchange of two neighbours that differ. */
  lemma SwapIsDetected(hrp: seq<bv8>, a: seq<bv32>, i: nat)
    requires Symbols(a) && i + 1 < |a| && a[i] != a[i + 1] && ChecksumHolds(hrp, a)
    ensures !ChecksumHolds(hrp, a[i := a[i + 1]][i + 1 := a[i]])
  {
    hide ChecksumHolds, Symbol;
    var b := a[i := a[i + 1]][i + 1 := a[i]];
    assert b[i] != a[i];
    BurstIsDetected(hrp, a, b, i, i + 2);
  }

  /** The six checksum symbols are determined by the rest of the address. */
  lemma ChecksumIsUnique(hrp: seq<bv8>, payload: seq<bv32>, c: seq<bv32>, d: seq<bv32>)
    requires Symbols(payload) && Symbols(c) && Symbols(d) && |c| == 6 == |d|
    requires ChecksumHolds(hrp, payload + c) && ChecksumHolds(hrp, payload + d)
    ensures c == d
  {
    hide ChecksumHolds, Symbol;
    var a, b, n := payload + c, payload + d, |payload|;
    if c != d {
      assert a[n..] == c && b[n..] == d;
      assert a[..n] == payload == b[..n];
      BurstIsDetected(hrp, a, b, n, n + 6);
    }
  }

  // ----- the human-readable part -----

  lemma ExpandTells(hrp: seq<bv8>, other: seq<bv8>)
    requires |hrp| == |other| && hrp != other
    ensures Expand(hrp) != Expand(other)
  {
    var i :| 0 <= i < |hrp| && hrp[i] != other[i];
    CharacterTells(hrp[i], other[i]);
    assert Expand(hrp)[i] == High(hrp[i]) && Expand(hrp)[|hrp| + 1 + i] == Low(hrp[i]);
    assert Expand(other)[i] == High(other[i]) && Expand(other)[|hrp| + 1 + i] == Low(other[i]);
  }

  lemma CharacterTells(c: bv8, d: bv8)
    requires c != d
    ensures High(c) != High(d) || Low(c) != Low(d)
  {
  }

  /** A data part that is valid for one network of two letters is valid for no other. */
  lemma WrongNetworkIsDetected(hrp: seq<bv8>, other: seq<bv8>, a: seq<bv32>)
    requires |hrp| == 2 == |other| && hrp != other && Symbols(a)
    ensures !(ChecksumHolds(hrp, a) && ChecksumHolds(other, a))
  {
    hide Steps, Step, Expand, State;
    ExpandTells(hrp, other);
    ExpandIsSymbols(hrp);
    ExpandIsSymbols(other);
    ExpandLength(hrp);
    ExpandLength(other);
    InitialState();
    BurstsDiffer(1, Expand(hrp), Expand(other));
    StepsStay(1, Expand(hrp));
    StepsStay(1, Expand(other));
    StepsKeepDifferent(Steps(1, Expand(hrp)), Steps(1, Expand(other)), a);
    StepsConcat(1, Expand(hrp), a);
    StepsConcat(1, Expand(other), a);
  }

  lemma ExpandLength(hrp: seq<bv8>)
    ensures |Expand(hrp)| == 2 * |hrp| + 1
  {
  }

  lemma OneMoreStep(s: seq<bv32>, chk: bv32, v: bv32, next: bv32)
    requires Steps(1, s) == chk && Step(chk, v) == next
    ensures Steps(1, s + [v]) == next
  {
    assert (s + [v])[..|s|] == s;
  }

  lemma VectorSteps()
    ensures Step(1, 3) == 0x23 && Step(0x23, 0) == 0x460 && Step(0x460, 1) == 0x8c01
    ensures Step(0x8c01, 10) == 0x11802a && Step(0x11802a, 28) == 0x230055c && Step(0x230055c, 25) == 0x3d6afc2b
    ensures Step(0x3d6afc2b, 31) == 0x2f84386 && Step(0x2f84386, 20) == 0x24622766 && Step(0x24622766, 31) == 1
  {
  }

  /** The first valid string among the test vectors of BIP-173: "a", and the symbols of "2uel5l". */
  lemma StandardVectorHolds()
    ensures ChecksumHolds([97], [10, 28, 25, 31, 20, 31])
  {
    hide Step;
    VectorSteps();
    assert Expand([97]) == [3, 0, 1];
    var s := [];
    assert Steps(1, s) == 1;
    OneMoreStep([], 1, 3, 0x23);
    OneMoreStep([] + [3], 0x23, 0, 0x460);
    OneMoreStep([] + [3] + [0], 0x460, 1, 0x8c01);
    assert [] + [3] + [0] + [1] == Expand([97]);
    var e := Expand([97]);
    OneMoreStep(e, 0x8c01, 10, 0x11802a);
    OneMoreStep(e + [10], 0x11802a, 28, 0x230055c);
    OneMoreStep(e + [10] + [28], 0x230055c, 25, 0x3d6afc2b);
    OneMoreStep(e + [10] + [28] + [25], 0x3d6afc2b, 31, 0x2f84386);
    OneMoreStep(e + [10] + [28] + [25] + [31], 0x2f84386, 20, 0x24622766);
    OneMoreStep(e + [10] + [28] + [25] + [31] + [20], 0x24622766, 31, 1);
    assert e + [10] + [28] + [25] + [31] + [20] + [31] == e + [10, 28, 25, 31, 20, 31];
  }

  // ----- where the coefficients come from -----

  /** One of the six 5-bit coefficients of a state, from the lowest. */
  function Coefficient(chk: bv32, j: bv6): bv32
    requires j < 6
  {
    (chk >> (5 * j)) & 31
  }

  /** Doubling in the field of 32 elements, where a^5 is a^3 + 1. */
  function Doubled(a: bv32): bv32 {
    if a & 16 == 16 then ((a << 1) ^ 0x29) & 31 else (a << 1) & 31
  }

  function Scaled(a: bv32, b: bv32, i: bv6): bv32
    requires i < 5
  {
    if (b >> i) & 1 == 1 then a else 0
  }

  /** The product of two field elements, by the bits of the second. */
  function Product(a: bv32, b: bv32): bv32 {
    var a2 := Doubled(a);
    var a4 := Doubled(a2);
    var a8 := Doubled(a4);
    Xor(Xor(Xor(Xor(Scaled(a, b, 0), Scaled(a2, b, 1)), Scaled(a4, b, 2)), Scaled(a8, b, 3)), Scaled(Doubled(a8), b, 4))
  }

  /** The generator polynomial of BIP-173, below its leading x^6. */
  function Generator(j: bv6): bv32 {
    if j == 0 then 18 else if j == 1 then 29 else if j == 2 then 21 else if j == 3 then 20 else if j == 4 then 22 else 29
  }

  /** The coefficients of one shifted-out bit are those of the bit before, doubled. */
  lemma GenIsGenerator(j: bv6)
    requires j < 6
    ensures Coefficient(Gen(0), j) == Generator(j)
    ensures Coefficient(Gen(1), j) == Doubled(Coefficient(Gen(0), j))
    ensures Coefficient(Gen(2), j) == Doubled(Coefficient(Gen(1), j))
    ensures Coefficient(Gen(3), j) == Doubled(Coefficient(Gen(2), j))
    ensures Coefficient(Gen(4), j) == Doubled(Coefficient(Gen(3), j))
  {
    if j == 0 { } else if j == 1 { } else if j == 2 { } else if j == 3 { } else if j == 4 { } else { }
  }

  lemma CoefficientOfXor(a: bv32, b: bv32, j: bv6)
    requires j < 6
    ensures Coefficient(Xor(a, b), j) == Xor(Coefficient(a, j), Coefficient(b, j))
  {
    if j == 0 { } else if j == 1 { } else if j == 2 { } else if j == 3 { } else if j == 4 { } else { }
  }

  lemma CoefficientOfTerm(b: bv32, i: bv6, j: bv6)
    requires i < 5 && j < 6
    ensures Coefficient(Term(b, i), j) == Scaled(Coefficient(Gen(i), j), b, i)
  {
    hide Gen;
    assert Coefficient(0, j) == 0;
  }

  lemma CoefficientsShift(chk: bv32, v: bv32, j: bv6)
    requires chk <= 0x3fff_ffff && v < 32 && j < 6
    ensures Xor(Coefficient(Shifted(chk), j), Coefficient(v, j)) == if j == 0 then v else Coefficient(chk, j - 1)
    ensures Top(chk) == Coefficient(chk, 5)
  {
    if j == 0 { } else if j == 1 { } else if j == 2 { } else if j == 3 { } else if j == 4 { } else { }
  }

  lemma FoldIsProduct(b: bv32, j: bv6)
    requires j < 6
    ensures Coefficient(Fold(b, 5), j) == Product(Generator(j), b)
  {
    hide Gen, Term, Coefficient, Xor, Scaled, Generator, Doubled;
    GenIsGenerator(j);
    FoldUnfolds(b);
    ZeroFirst(b);
    CoefficientOfTerm(b, 0, j);
    CoefficientOfTerm(b, 1, j);
    CoefficientOfTerm(b, 2, j);
    CoefficientOfTerm(b, 3, j);
    CoefficientOfTerm(b, 4, j);
    CoefficientOfXor(Fold(b, 1), Term(b, 1), j);
    CoefficientOfXor(Fold(b, 2), Term(b, 2), j);
    CoefficientOfXor(Fold(b, 3), Term(b, 3), j);
    CoefficientOfXor(Fold(b, 4), Term(b, 4), j);
  }

  lemma FoldUnfolds(b: bv32)
    ensures Fold(b, 1) == Xor(0, Term(b, 0)) && Fold(b, 2) == Xor(Fold(b, 1), Term(b, 1))
    ensures Fold(b, 3) == Xor(Fold(b, 2), Term(b, 2)) && Fold(b, 4) == Xor(Fold(b, 3), Term(b, 3))
    ensures Fold(b, 5) == Xor(Fold(b, 4), Term(b, 4))
  {
    hide Term, Xor;
    assert Fold(b, 0) == 0;
  }

  lemma ZeroFirst(b: bv32)
    ensures Xor(0, Term(b, 0)) == Term(b, 0)
  {
  }

  /**
   * A step takes the state, read as a polynomial of degree five over the field, times x plus the symbol, and leaves the
   * remainder by the generator polynomial.
   */
  lemma StepIsRemainder(chk: bv32, v: bv32, j: bv6)
    requires chk <= 0x3fff_ffff && v < 32 && j < 6
    ensures Coefficient(Step(chk, v), j) ==
      Xor(if j == 0 then v else Coefficient(chk, j - 1), Product(Generator(j), Coefficient(chk, 5)))
  {
    hide Coefficient, Shifted, Top, Fold, Xor, Product, Generator;
    CoefficientsShift(chk, v, j);
    FoldIsProduct(Top(chk), j);
    CoefficientOfXor(Shifted(chk), v, j);
    CoefficientOfXor(Xor(Shifted(chk), v), Fold(Top(chk), 5), j);
  }
}
