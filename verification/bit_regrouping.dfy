/**
 * Regrouping a byte string from groups of one width into groups of another, as addresses do between 8-bit bytes
 * and 5-bit symbols. The meaning of a group string is the string of its bits, most significant first.
 */
module BitRegrouping {
  import opened Arithmetic
  import opened MatchingTypes

  const WORD: nat := 0x1_0000_0000

  /** The low n bits of a number. */
  function LowBits(a: nat, n: nat): (bits: seq<bool>)
    ensures |bits| == n
  {
    if n == 0 then [] else LowBits(a / 2, n - 1) + [a % 2 == 1]
  }

  /** All the bits of a string of groups. */
  function Bits(data: seq<nat>, width: nat): (bits: seq<bool>)
    ensures |bits| == |data| * width
  {
    if data == [] then [] else Bits(data[..|data| - 1], width) + LowBits(data[|data| - 1], width)
  }

  predicate Grouped(data: seq<nat>, width: nat) {
    forall i :: 0 <= i < |data| ==> data[i] < Pow2(width)
  }

  predicate AllZero(bits: seq<bool>) {
    forall i :: 0 <= i < |bits| ==> !bits[i]
  }

  /**
   * out carries exactly the bits of data. Padding completes the last group with zeros; without padding, what does not
   * fill a group must be zeros, fewer than one input group of them.
   */
  predicate Regroups(data: seq<nat>, from: nat, to: nat, pad: bool, out: seq<nat>) {
    var source, target := Bits(data, from), Bits(out, to);
    && Grouped(data, from) && Grouped(out, to)
    && if pad
       then source <= target && |target| - |source| < to && AllZero(target[|source|..])
       else target <= source && |source| - |target| < from && |source| - |target| < to && AllZero(source[|target|..])
  }

  // ----- shifting and masking, bit by bit -----

  lemma {:induction false} ShiftIn(a: nat, n: nat, b: nat, k: nat)
    requires b < Pow2(k)
    ensures LowBits(a * Pow2(k) + b, n + k) == LowBits(a, n) + LowBits(b, k)
  {
    if k == 0 {
      assert a * Pow2(0) + b == a;
    } else {
      var half := Pow2(k - 1);
      assert a * Pow2(k) == 2 * (a * half);
      assert (a * Pow2(k) + b) / 2 == a * half + b / 2 && (a * Pow2(k) + b) % 2 == b % 2;
      ShiftIn(a, n, b / 2, k - 1);
    }
  }

  lemma {:induction false} ShiftOut(a: nat, m: nat, n: nat)
    ensures LowBits(a, m + n) == LowBits(Quotient(a, Pow2(n)), m) + LowBits(a, n)
  {
    if n == 0 {
      assert Quotient(a, Pow2(0)) == a;
    } else {
      ShiftOut(a / 2, m, n - 1);
      HalfThenShift(a, n);
    }
  }

  lemma HalfThenShift(a: nat, n: nat)
    requires n > 0
    ensures Quotient(a / 2, Pow2(n - 1)) == Quotient(a, Pow2(n))
  {
    var half := Pow2(n - 1);
    var q, r := Quotient(a / 2, half), (a / 2) % half;
    assert a / 2 == q * half + r;
    assert a == q * (2 * half) + (2 * r + a % 2);
    DivMod(q, 2 * r + a % 2, 2 * half);
  }

  lemma {:induction false} MaskKeepsLow(a: nat, n: nat, k: nat)
    requires n <= k
    ensures LowBits(a % Pow2(k), n) == LowBits(a, n)
  {
    if n > 0 {
      MaskHalves(a, k);
      MaskKeepsLow(a / 2, n - 1, k - 1);
    }
  }

  lemma MaskHalves(a: nat, k: nat)
    requires k > 0
    ensures (a % Pow2(k)) / 2 == (a / 2) % Pow2(k - 1) && (a % Pow2(k)) % 2 == a % 2
  {
    var half := Pow2(k - 1);
    var q, r := (a / 2) / half, (a / 2) % half;
    assert a / 2 == q * half + r;
    assert a == q * (2 * half) + (2 * r + a % 2);
    DivMod(q, 2 * r + a % 2, 2 * half);
  }

  lemma {:induction false} BitsTell(a: nat, b: nat, n: nat)
    requires a < Pow2(n) && b < Pow2(n) && LowBits(a, n) == LowBits(b, n)
    ensures a == b
  {
    if n > 0 {
      assert LowBits(a, n)[n - 1] == LowBits(b, n)[n - 1];
      assert LowBits(a / 2, n - 1) == LowBits(a, n)[..n - 1] == LowBits(b / 2, n - 1);
      BitsTell(a / 2, b / 2, n - 1);
    }
  }

  lemma {:induction false} ZeroBits(a: nat, n: nat)
    requires a < Pow2(n)
    ensures AllZero(LowBits(a, n)) <==> a == 0
  {
    if n > 0 {
      ZeroBits(a / 2, n - 1);
      assert LowBits(a, n)[n - 1] == (a % 2 == 1);
      assert LowBits(a, n)[..n - 1] == LowBits(a / 2, n - 1);
    }
  }

  // ----- the algorithm -----

  /** The accumulator is a 32-bit word: what is shifted out at its top is gone. */
  function Push(acc: nat, b: nat, width: nat): nat {
    (acc * Pow2(width) + b) % WORD
  }

  /** The group left of the low bits. */
  function Take(acc: nat, bits: nat, width: nat): nat {
    Quotient(acc, Pow2(bits)) % Pow2(width)
  }

  /** The low bits moved up to fill a group. */
  function LastGroup(acc: nat, bits: nat, width: nat): nat
    requires bits <= width
  {
    Push(acc, 0, width - bits) % Pow2(width)
  }

  lemma {:induction false} Pow2Adds(m: nat, n: nat)
    ensures Pow2(m + n) == Pow2(m) * Pow2(n)
  {
    if m > 0 {
      Pow2Adds(m - 1, n);
    }
  }

  lemma WordIsPow2()
    ensures Pow2(32) == WORD
  {
    assert Pow2(8) == 256;
    Pow2Adds(8, 8);
    Pow2Adds(16, 16);
  }

  lemma PushKeeps(acc: nat, bits: nat, b: nat, width: nat)
    requires b < Pow2(width) && bits + width <= 32
    ensures LowBits(Push(acc, b, width), bits + width) == LowBits(acc, bits) + LowBits(b, width)
  {
    hide LowBits;
    WordIsPow2();
    MaskKeepsLow(acc * Pow2(width) + b, bits + width, 32);
    ShiftIn(acc, bits, b, width);
  }

  lemma TakeSplits(acc: nat, bits: nat, width: nat)
    ensures LowBits(acc, width + bits) == LowBits(Take(acc, bits, width), width) + LowBits(acc, bits)
    ensures Take(acc, bits, width) < Pow2(width)
  {
    hide LowBits, Pow2;
    ShiftOut(acc, width, bits);
    MaskKeepsLow(Quotient(acc, Pow2(bits)), width, width);
  }

  lemma LastGroupIs(acc: nat, bits: nat, width: nat)
    requires bits <= width <= 8
    ensures LowBits(LastGroup(acc, bits, width), width) == LowBits(acc, bits) + LowBits(0, width - bits)
    ensures LastGroup(acc, bits, width) < Pow2(width)
  {
    hide LowBits, Pow2, Push;
    PushKeeps(acc, bits, 0, width - bits);
    MaskKeepsLow(Push(acc, 0, width - bits), width, width);
  }

  lemma LastGroupIsZero(acc: nat, bits: nat, width: nat)
    requires bits <= width <= 8
    ensures LastGroup(acc, bits, width) == 0 <==> AllZero(LowBits(acc, bits))
    ensures AllZero(LowBits(0, width - bits))
  {
    hide LowBits, LastGroup;
    var x := LastGroup(acc, bits, width);
    LastGroupIs(acc, bits, width);
    ZeroBits(x, width);
    ZeroBits(0, width - bits);
    assert LowBits(x, width)[..bits] == LowBits(acc, bits);
  }

  lemma BitsAppend(data: seq<nat>, b: nat, width: nat)
    ensures Bits(data + [b], width) == Bits(data, width) + LowBits(b, width)
  {
    assert (data + [b])[..|data|] == data;
  }

  method ConvertBits(data: seq<nat>, from: nat, to: nat, pad: bool) returns (r: Option<seq<nat>>)
    requires 0 < from <= 8 && 0 < to <= 8
    ensures r.Some? ==> Regroups(data, from, to, pad, r.value)
    ensures r.None? ==> forall out :: !Regroups(data, from, to, pad, out)
    ensures pad && Grouped(data, from) ==> r.Some?
  {
    hide LowBits, Bits, Push, Take, LastGroup, Pow2, Regroups;
    var acc: nat, bits: nat := 0, 0;
    var out: seq<nat> := [];
    StartEmpty(from, to);
    for i := 0 to |data|
      invariant bits < to
      invariant Progress(data[..i], from, out, to, acc, bits)
    {
      var b := data[i];
      if b >= Pow2(from) {
        NotGrouped(data, from, to, pad, i);
        return None;
      }
      OneMore(data[..i], b, from, out, to, acc, bits);
      assert data[..i] + [b] == data[..i + 1];
      acc := Push(acc, b, from);
      bits := bits + from;
      while bits >= to
        invariant bits < to + from
        invariant Progress(data[..i + 1], from, out, to, acc, bits)
      {
        bits := bits - to;
        OneOut(data[..i + 1], from, out, to, acc, bits);
        out := out + [Take(acc, bits, to)];
      }
    }
    assert data[..|data|] == data;
    if pad {
      PadIsRegrouping(data, from, out, to, acc, bits);
      if bits > 0 {
        out := out + [LastGroup(acc, bits, to)];
      }
    } else {
      RestDecides(data, from, out, to, acc, bits);
      if bits >= from || LastGroup(acc, bits, to) != 0 {
        return None;
      }
    }
    r := Some(out);
  }

  /** The bits read so far are the groups written and the low bits of the accumulator. */
  predicate Progress(read: seq<nat>, from: nat, out: seq<nat>, to: nat, acc: nat, bits: nat) {
    && Grouped(read, from) && Grouped(out, to)
    && Bits(read, from) == Bits(out, to) + LowBits(acc, bits)
  }

  lemma StartEmpty(from: nat, to: nat)
    ensures Progress([], from, [], to, 0, 0)
  {
  }

  lemma OneMore(read: seq<nat>, b: nat, from: nat, out: seq<nat>, to: nat, acc: nat, bits: nat)
    requires Progress(read, from, out, to, acc, bits) && b < Pow2(from) && bits + from <= 32
    ensures Progress(read + [b], from, out, to, Push(acc, b, from), bits + from)
  {
    hide LowBits, Bits, Push, Pow2;
    BitsAppend(read, b, from);
    PushKeeps(acc, bits, b, from);
  }

  lemma OneOut(read: seq<nat>, from: nat, out: seq<nat>, to: nat, acc: nat, bits: nat)
    requires Progress(read, from, out, to, acc, to + bits)
    ensures Progress(read, from, out + [Take(acc, bits, to)], to, acc, bits)
  {
    hide LowBits, Bits, Take, Pow2;
    TakeSplits(acc, bits, to);
    BitsAppend(out, Take(acc, bits, to), to);
  }

  lemma NotGrouped(data: seq<nat>, from: nat, to: nat, pad: bool, i: nat)
    requires i < |data| && data[i] >= Pow2(from)
    ensures forall out :: !Regroups(data, from, to, pad, out)
  {
    hide Bits, LowBits, Pow2;
  }

  lemma PadIsRegrouping(data: seq<nat>, from: nat, out: seq<nat>, to: nat, acc: nat, bits: nat)
    requires Progress(data, from, out, to, acc, bits) && bits < to <= 8
    ensures Regroups(data, from, to, true, if bits > 0 then out + [LastGroup(acc, bits, to)] else out)
  {
    hide LastGroup, Bits, Pow2;
    if bits > 0 {
      var x := LastGroup(acc, bits, to);
      LastGroupIs(acc, bits, to);
      LastGroupIsZero(acc, bits, to);
      BitsAppend(out, x, to);
      var source, target := Bits(data, from), Bits(out + [x], to);
      assert target == source + LowBits(0, to - bits);
    } else {
      assert LowBits(acc, 0) == [];
    }
  }

  lemma RestDecides(data: seq<nat>, from: nat, out: seq<nat>, to: nat, acc: nat, bits: nat)
    requires Progress(data, from, out, to, acc, bits) && bits < to <= 8
    ensures bits < from && LastGroup(acc, bits, to) == 0 ==> Regroups(data, from, to, false, out)
    ensures !(bits < from && LastGroup(acc, bits, to) == 0) ==> forall o :: !Regroups(data, from, to, false, o)
  {
    hide LastGroup, Bits, Pow2, LowBits;
    var source := Bits(data, from);
    LastGroupIsZero(acc, bits, to);
    assert source[|Bits(out, to)|..] == LowBits(acc, bits);
    forall o | Regroups(data, from, to, false, o)
      ensures bits < from && AllZero(LowBits(acc, bits))
    {
      SameCount(|o|, |out|, to, |source| - |o| * to, bits);
    }
  }

  lemma SameCount(m: nat, n: nat, width: nat, r: nat, s: nat)
    requires m * width + r == n * width + s && r < width && s < width
    ensures m == n && r == s
  {
    DivMod(m, r, width);
    DivMod(n, s, width);
  }

  // ----- the meaning determines the groups, and the two directions undo each other -----

  lemma {:induction false} BitsDetermine(a: seq<nat>, b: seq<nat>, width: nat)
    requires Grouped(a, width) && Grouped(b, width) && |a| == |b| && Bits(a, width) == Bits(b, width)
    ensures a == b
  {
    hide LowBits, Pow2;
    if a != [] {
      var n := |a| - 1;
      assert Bits(a[..n], width) == Bits(a, width)[..n * width] && Bits(b[..n], width) == Bits(b, width)[..n * width];
      assert LowBits(a[n], width) == Bits(a, width)[n * width..] && LowBits(b[n], width) == Bits(b, width)[n * width..];
      BitsDetermine(a[..n], b[..n], width);
      BitsTell(a[n], b[n], width);
    }
  }

  /** A regrouping is unique. */
  lemma RegroupsOnce(data: seq<nat>, from: nat, to: nat, pad: bool, out: seq<nat>, other: seq<nat>)
    requires to > 0 && Regroups(data, from, to, pad, out) && Regroups(data, from, to, pad, other)
    ensures out == other
  {
    hide Bits;
    var source := Bits(data, from);
    if pad {
      var k, l := |Bits(out, to)| - |source|, |Bits(other, to)| - |source|;
      assert |out| * to + l == |other| * to + k;
      SameCount(|out|, |other|, to, l, k);
      assert Bits(out, to)[|source|..] == Bits(other, to)[|source|..];
      assert Bits(out, to) == source + Bits(out, to)[|source|..] && Bits(other, to) == source + Bits(other, to)[|source|..];
    } else {
      var k, l := |source| - |Bits(out, to)|, |source| - |Bits(other, to)|;
      SameCount(|out|, |other|, to, k, l);
    }
    BitsDetermine(out, other, to);
  }

  /**
   * Symbols decode to some bytes exactly when they are those bytes' own padded encoding: decoding undoes encoding, and
   * accepts nothing but encodings.
   */
  lemma DecodesIffEncoded(bytes: seq<nat>, symbols: seq<nat>)
    ensures Regroups(symbols, 5, 8, false, bytes) <==> Regroups(bytes, 8, 5, true, symbols)
  {
    hide Bits;
    var b, s := Bits(bytes, 8), Bits(symbols, 5);
    assert b <= s ==> s == b + s[|b|..];
  }

  /** Every byte string survives being padded into symbols and regrouped back. */
  method RoundTrip(bytes: seq<nat>) returns (symbols: seq<nat>, back: Option<seq<nat>>)
    requires Grouped(bytes, 8)
    ensures Regroups(bytes, 8, 5, true, symbols) && back == Some(bytes)
  {
    hide Regroups;
    var r := ConvertBits(bytes, 8, 5, true);
    symbols := r.value;
    back := ConvertBits(symbols, 5, 8, false);
    DecodesIffEncoded(bytes, symbols);
    if back.Some? {
      RegroupsOnce(symbols, 5, 8, false, bytes, back.value);
    }
  }
}
