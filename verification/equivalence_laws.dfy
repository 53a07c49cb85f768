/**
 * Two books that cannot be told apart by what the engine does with them: equal queues up to renumbered places, stops
 * whose places compare alike, and one last price. Every input keeps two such books such, and trades the same on both.
 */
module EquivalenceLaws {
  import opened MatchingTypes
  import opened BookSpec
  import opened MatchingSpec

  /** An order up to its renumbered place and its re-stamped age. */
  function Core(o: Order): Order {
    o.(bookSeq := 0, createdAt := 0)
  }

  ghost predicate Alike(q: seq<Order>, r: seq<Order>) {
    |q| == |r| && forall i :: 0 <= i < |q| ==> Core(q[i]) == Core(r[i])
  }

  /** The places of two lists compare with each other as those of two other lists do. */
  ghost predicate PlacedAlike(q: seq<Order>, r: seq<Order>, s: seq<Order>, t: seq<Order>) {
    && |q| == |r| && |s| == |t|
    && forall i, j :: 0 <= i < |q| && 0 <= j < |s| ==>
         && (q[i].bookSeq < s[j].bookSeq <==> r[i].bookSeq < t[j].bookSeq)
         && (s[j].bookSeq < q[i].bookSeq <==> t[j].bookSeq < r[i].bookSeq)
  }

  ghost predicate Bounded(q: seq<Order>, n: nat) {
    forall o :: o in q ==> 0 < o.bookSeq <= n
  }

  /** Stops look at the last price only when it is positive. */
  predicate SameLast(x: int, y: int) {
    x == y || (x <= 0 && y <= 0)
  }

  /** The books agree, and so do two lists of stops on where each of them stands against the queues. */
  ghost predicate AgreeOn(b: Book, c: Book, s: seq<Order>, t: seq<Order>) {
    && Alike(b.bids, c.bids) && Alike(b.asks, c.asks) && Alike(s, t)
    && PlacedAlike(b.bids, c.bids, s, t) && PlacedAlike(b.asks, c.asks, s, t) && PlacedAlike(s, t, s, t)
    && Bounded(b.bids, b.seqNo) && Bounded(b.asks, b.seqNo) && Bounded(s, b.seqNo)
    && Bounded(c.bids, c.seqNo) && Bounded(c.asks, c.seqNo) && Bounded(t, c.seqNo)
    && SameLast(b.last, c.last)
  }

  ghost predicate Equivalent(b: Book, c: Book) {
    AgreeOn(b, c, b.stops, c.stops)
  }

  // ----- one walk -----

  lemma {:induction false} WalkAlike(t: Order, u: Order, q: seq<Order>, r: seq<Order>, engine: Stp)
    requires Core(t) == Core(u) && Alike(q, r)
    ensures var w, v := Walk(t, q, engine), Walk(u, r, engine);
      Core(w.taker) == Core(v.taker) && Alike(w.rest, v.rest) && w.trades == v.trades
    decreases |q|, 1
  {
    hide Walk;
    if q != [] && t.remaining > 0 && Crosses(t, q[0].price.Units()) {
      if SelfTrade(t, q[0], engine) {
        if Mode(t, engine) == CancelMaker { WalkAlike(t, u, q[1..], r[1..], engine); }
        SelfTradeAlike(t, u, q, r, engine);
      } else {
        FillAlike(t, u, q, r, engine);
      }
    } else {
      NothingAlike(t, u, q, r, engine);
    }
  }

  lemma NothingAlike(t: Order, u: Order, q: seq<Order>, r: seq<Order>, engine: Stp)
    requires Core(t) == Core(u) && Alike(q, r)
    requires q == [] || t.remaining <= 0 || !Crosses(t, q[0].price.Units())
    ensures Walk(t, q, engine) == Walked(t, q, []) && Walk(u, r, engine) == Walked(u, r, [])
  {
    assert q != [] ==> Core(q[0]) == Core(r[0]);
  }

  /** An own order met on the way: the walk stops at it, or goes on behind it. */
  lemma SelfTradeAlike(t: Order, u: Order, q: seq<Order>, r: seq<Order>, engine: Stp)
    requires Core(t) == Core(u) && Alike(q, r) && q != [] && t.remaining > 0
    requires Crosses(t, q[0].price.Units()) && SelfTrade(t, q[0], engine)
    ensures Mode(t, engine) == CancelMaker ==>
      Walk(t, q, engine) == Walk(t, q[1..], engine) && Walk(u, r, engine) == Walk(u, r[1..], engine)
    ensures Mode(t, engine) != CancelMaker ==>
      var w, v := Walk(t, q, engine), Walk(u, r, engine);
      Core(w.taker) == Core(v.taker) && Alike(w.rest, v.rest) && w.trades == v.trades
  {
    assert Core(q[0]) == Core(r[0]);
  }

  lemma {:induction false} FillAlike(t: Order, u: Order, q: seq<Order>, r: seq<Order>, engine: Stp)
    requires Core(t) == Core(u) && Alike(q, r) && q != [] && t.remaining > 0
    requires Crosses(t, q[0].price.Units()) && !SelfTrade(t, q[0], engine)
    ensures var w, v := Walk(t, q, engine), Walk(u, r, engine);
      Core(w.taker) == Core(v.taker) && Alike(w.rest, v.rest) && w.trades == v.trades
    decreases |q|, 0
  {
    assert Core(q[0]) == Core(r[0]);
    var qty := FillQty(t, q[0]);
    PartialAlike(t, u, q, r, qty, engine);
    if qty == q[0].remaining {
      var t', u' := TakerAfter(t, qty), TakerAfter(u, qty);
      WalkAlike(t', u', q[1..], r[1..], engine);
      assert Walk(t, q, engine).trades == [TradeOf(t, q[0], qty)] + Walk(t', q[1..], engine).trades;
      assert Walk(u, r, engine).trades == [TradeOf(u, r[0], qty)] + Walk(u', r[1..], engine).trades;
    }
  }

  lemma PartialAlike(t: Order, u: Order, q: seq<Order>, r: seq<Order>, qty: int, engine: Stp)
    requires Core(t) == Core(u) && Alike(q, r) && q != []
    ensures Core(TakerAfter(t, qty)) == Core(TakerAfter(u, qty))
    ensures Alike([MakerAfter(q[0], qty)] + q[1..], [MakerAfter(r[0], qty)] + r[1..])
    ensures TradeOf(t, q[0], qty) == TradeOf(u, r[0], qty)
  {
    assert Core(q[0]) == Core(r[0]);
  }

  lemma {:induction false} WalkKeepsPlace(t: Order, q: seq<Order>, engine: Stp)
    ensures Walk(t, q, engine).taker.bookSeq == t.bookSeq
    decreases |q|
  {
    if q != [] && t.remaining > 0 && Crosses(t, q[0].price.Units()) {
      if SelfTrade(t, q[0], engine) {
        if Mode(t, engine) == CancelMaker { WalkKeepsPlace(t, q[1..], engine); }
      } else if FillQty(t, q[0]) == q[0].remaining {
        WalkKeepsPlace(TakerAfter(t, FillQty(t, q[0])), q[1..], engine);
      }
    }
  }

  /** The places of rest are the last ones of q. */
  ghost predicate LastPlaces(q: seq<Order>, rest: seq<Order>) {
    |rest| <= |q| && forall i :: 0 <= i < |rest| ==> rest[i].bookSeq == q[|q| - |rest| + i].bookSeq
  }

  lemma LastPlacesOfTail(q: seq<Order>, rest: seq<Order>)
    requires q != [] && LastPlaces(q[1..], rest)
    ensures LastPlaces(q, rest)
  {
    forall i | 0 <= i < |rest| ensures rest[i].bookSeq == q[|q| - |rest| + i].bookSeq {
      assert q[1..][|q[1..]| - |rest| + i] == q[|q| - |rest| + i];
    }
  }

  lemma LastPlacesOfHead(q: seq<Order>, rest: seq<Order>)
    requires rest == q || (q != [] && (rest == q[1..] || (exists qty :: rest == [MakerAfter(q[0], qty)] + q[1..])))
    ensures LastPlaces(q, rest)
  {
  }

  /** What a walk leaves stands where it stood. */
  lemma {:induction false} RestKeepsPlaces(t: Order, q: seq<Order>, engine: Stp)
    ensures LastPlaces(q, Walk(t, q, engine).rest)
    decreases |q|
  {
    hide LastPlaces, Crosses, SelfTrade, Mode, MakerAfter;
    var rest := Walk(t, q, engine).rest;
    if t.remaining <= 0 || q == [] || !Crosses(t, q[0].price.Units()) {
      LastPlacesOfHead(q, rest);
    } else if SelfTrade(t, q[0], engine) {
      if Mode(t, engine) == CancelTaker || Mode(t, engine) == CancelBoth {
        LastPlacesOfHead(q, rest);
      } else {
        RestKeepsPlaces(t, q[1..], engine);
        LastPlacesOfTail(q, rest);
      }
    } else {
      var qty := FillQty(t, q[0]);
      if qty < q[0].remaining {
        assert rest == [MakerAfter(q[0], qty)] + q[1..];
        LastPlacesOfHead(q, rest);
      } else {
        RestKeepsPlaces(TakerAfter(t, qty), q[1..], engine);
        LastPlacesOfTail(q, rest);
      }
    }
  }

  lemma RestBounded(t: Order, q: seq<Order>, engine: Stp, n: nat)
    requires Bounded(q, n)
    ensures Bounded(Walk(t, q, engine).rest, n)
  {
    hide Walk;
    RestKeepsPlaces(t, q, engine);
    var rest := Walk(t, q, engine).rest;
    forall i | 0 <= i < |rest| ensures 0 < rest[i].bookSeq <= n {
      assert q[|q| - |rest| + i] in q;
    }
  }

  lemma RestPlacedAlike(t: Order, u: Order, q: seq<Order>, r: seq<Order>, s: seq<Order>, v: seq<Order>, engine: Stp)
    requires Core(t) == Core(u) && Alike(q, r) && PlacedAlike(q, r, s, v)
    ensures PlacedAlike(Walk(t, q, engine).rest, Walk(u, r, engine).rest, s, v)
  {
    hide Walk, Core;
    WalkAlike(t, u, q, r, engine);
    RestKeepsPlaces(t, q, engine);
    RestKeepsPlaces(u, r, engine);
  }

  lemma SweepAlike(b: Book, c: Book, o: Order, p: Order, s: seq<Order>, t: seq<Order>, engine: Stp)
    requires AgreeOn(b, c, s, t) && Core(o) == Core(p)
    ensures var x, y := Sweep(b, o, engine), Sweep(c, p, engine);
      && AgreeOn(x.book, y.book, s, t) && Core(x.order) == Core(y.order) && x.trades == y.trades
      && x.book.stops == b.stops && y.book.stops == c.stops
      && x.order.bookSeq == o.bookSeq && y.order.bookSeq == p.bookSeq
      && x.book.seqNo >= b.seqNo && y.book.seqNo >= c.seqNo
      && x.book.Queue(o.side) == b.Queue(o.side) && y.book.Queue(o.side) == c.Queue(o.side)
  {
    hide Walk, PlacedAlike, Alike;
    var side := o.side.Opposite();
    WalkAlike(o, p, b.Queue(side), c.Queue(side), engine);
    WalkKeepsPlace(o, b.Queue(side), engine);
    WalkKeepsPlace(p, c.Queue(side), engine);
    RestBounded(o, b.Queue(side), engine, b.seqNo);
    RestBounded(p, c.Queue(side), engine, c.seqNo);
    RestPlacedAlike(o, p, b.Queue(side), c.Queue(side), s, t, engine);
  }

  // ----- joining the queues -----

  lemma ComparesAlike(x: Order, y: Order, o: Order, p: Order)
    requires Core(x) == Core(y) && o.side == p.side && o.price == p.price
    requires o.bookSeq < x.bookSeq <==> p.bookSeq < y.bookSeq
    ensures Precedes(o, x) <==> Precedes(p, y)
  {
  }

  lemma RankAlike(q: seq<Order>, r: seq<Order>, o: Order, p: Order)
    requires Alike(q, r) && o.side == p.side && o.price == p.price && PlacedAlike(q, r, [o], [p])
    ensures Rank(q, o) == Rank(r, p)
  {
    hide Rank, Precedes;
    forall i | 0 <= i < |q| ensures Precedes(o, q[i]) <==> Precedes(p, r[i]) {
      assert [o][0] == o && [p][0] == p;
      ComparesAlike(q[i], r[i], o, p);
    }
  }

  lemma InsertAlike(q: seq<Order>, r: seq<Order>, o: Order, p: Order, s: seq<Order>, t: seq<Order>)
    requires Alike(q, r) && Core(o) == Core(p) && PlacedAlike(q, r, [o], [p])
    requires PlacedAlike(q, r, s, t) && PlacedAlike([o], [p], s, t)
    ensures Alike(Insert(q, o), Insert(r, p)) && PlacedAlike(Insert(q, o), Insert(r, p), s, t)
  {
    hide Rank;
    RankAlike(q, r, o, p);
    var k := Rank(q, o);
    var i, j := Insert(q, o), Insert(r, p);
    assert forall n :: 0 <= n < |i| ==> i[n] == if n < k then q[n] else if n == k then o else q[n - 1];
    assert forall n :: 0 <= n < |j| ==> j[n] == if n < k then r[n] else if n == k then p else r[n - 1];
    forall n, m | 0 <= n < |i| && 0 <= m < |s|
      ensures i[n].bookSeq < s[m].bookSeq <==> j[n].bookSeq < t[m].bookSeq
      ensures s[m].bookSeq < i[n].bookSeq <==> t[m].bookSeq < j[n].bookSeq
    {
      assert [o][0] == o && [p][0] == p;
    }
  }

  /** An order may join both books: new to both, or placed in both and comparing alike with everything. */
  ghost predicate JoinAlike(b: Book, c: Book, o: Order, p: Order, s: seq<Order>, t: seq<Order>) {
    && Core(o) == Core(p)
    && (o.bookSeq == 0 == p.bookSeq ||
        (0 < o.bookSeq <= b.seqNo && 0 < p.bookSeq <= c.seqNo
         && PlacedAlike([o], [p], b.Queue(o.side), c.Queue(o.side)) && PlacedAlike([o], [p], s, t)))
  }

  /** Behind everything there is, on either side of the comparison. */
  lemma NewestPlaced(q: seq<Order>, r: seq<Order>, o: Order, p: Order)
    requires |q| == |r| && Bounded(q, o.bookSeq) && Bounded(r, p.bookSeq)
    requires (forall x :: x in q ==> x.bookSeq < o.bookSeq) && (forall x :: x in r ==> x.bookSeq < p.bookSeq)
    ensures PlacedAlike(q, r, [o], [p]) && PlacedAlike([o], [p], q, r)
  {
  }

  lemma PlacedSwaps(q: seq<Order>, r: seq<Order>, s: seq<Order>, t: seq<Order>)
    ensures PlacedAlike(q, r, s, t) ==> PlacedAlike(s, t, q, r)
  {
  }

  lemma SequencedAlike(b: Book, c: Book, o: Order, p: Order, q: seq<Order>, r: seq<Order>)
    requires Core(o) == Core(p) && Bounded(q, b.seqNo) && Bounded(r, c.seqNo) && |q| == |r|
    requires o.bookSeq == 0 == p.bookSeq || (0 < o.bookSeq && 0 < p.bookSeq && PlacedAlike([o], [p], q, r))
    ensures var n, m := Sequenced(b, o), Sequenced(c, p);
      PlacedAlike(q, r, [n], [m]) && PlacedAlike([n], [m], q, r)
  {
    hide Core;
    if o.bookSeq == 0 {
      NewestPlaced(q, r, Sequenced(b, o), Sequenced(c, p));
    } else {
      PlacedSwaps([o], [p], q, r);
    }
  }

  lemma AddAlike(b: Book, c: Book, o: Order, p: Order, s: seq<Order>, t: seq<Order>)
    requires AgreeOn(b, c, s, t) && JoinAlike(b, c, o, p, s, t)
    ensures AgreeOn(Add(b, o), Add(c, p), s, t)
  {
    hide PlacedAlike, Alike, Insert;
    var n, m := Sequenced(b, o), Sequenced(c, p);
    var q, r := b.Queue(o.side), c.Queue(o.side);
    AlikeLength(s, t);
    AlikeLength(q, r);
    SequencedAlike(b, c, o, p, q, r);
    SequencedAlike(b, c, o, p, s, t);
    InsertAlike(q, r, n, m, s, t);
    InsertContents(q, n);
    InsertContents(r, m);
  }

  lemma AlikeLength(q: seq<Order>, r: seq<Order>)
    ensures Alike(q, r) ==> |q| == |r|
  {
  }

  // ----- matching an order -----

  lemma LimitAlike(b: Book, c: Book, o: Order, p: Order, s: seq<Order>, t: seq<Order>, engine: Stp)
    requires AgreeOn(b, c, s, t) && JoinAlike(b, c, o, p, s, t)
    ensures var x, y := MatchLimit(b, o, engine), MatchLimit(c, p, engine);
      AgreeOn(x.book, y.book, s, t) && x.trades == y.trades && x.book.stops == b.stops && y.book.stops == c.stops
      && x.book.seqNo >= b.seqNo && y.book.seqNo >= c.seqNo
  {
    hide Walk, AgreeOn, PlacedAlike, Sweep;
    SweepAlike(b, c, o, p, s, t, engine);
    var x, y := Sweep(b, o, engine), Sweep(c, p, engine);
    if Rests(x.order) {
      var n := x.order.(status := if x.order.status == PartiallyFilled then PartiallyFilled else New);
      var m := y.order.(status := if y.order.status == PartiallyFilled then PartiallyFilled else New);
      SweptSide(b, o, engine);
      SamePlaced(o, n, p, m, b.Queue(o.side), c.Queue(o.side));
      SamePlaced(o, n, p, m, s, t);
      AddAlike(x.book, y.book, n, m, s, t);
    }
  }

  lemma SweptSide(b: Book, o: Order, engine: Stp)
    ensures Sweep(b, o, engine).order.side == o.side
  {
    hide Walk;
    WalkKeepsSide(o, b.Queue(o.side.Opposite()), engine);
  }

  lemma {:induction false} WalkKeepsSide(t: Order, q: seq<Order>, engine: Stp)
    ensures Walk(t, q, engine).taker.side == t.side
    decreases |q|
  {
    if q != [] && t.remaining > 0 && Crosses(t, q[0].price.Units()) {
      if SelfTrade(t, q[0], engine) {
        if Mode(t, engine) == CancelMaker { WalkKeepsSide(t, q[1..], engine); }
      } else if FillQty(t, q[0]) == q[0].remaining {
        WalkKeepsSide(TakerAfter(t, FillQty(t, q[0])), q[1..], engine);
      }
    }
  }

  lemma SamePlaced(o: Order, n: Order, p: Order, m: Order, q: seq<Order>, r: seq<Order>)
    requires o.bookSeq == n.bookSeq && p.bookSeq == m.bookSeq
    ensures PlacedAlike([o], [p], q, r) ==> PlacedAlike([n], [m], q, r)
  {
    if PlacedAlike([o], [p], q, r) {
      assert [o][0] == o && [p][0] == p;
    }
  }

  lemma PostOnlyAlike(b: Book, c: Book, o: Order, p: Order)
    requires Equivalent(b, c) && Core(o) == Core(p) && o.bookSeq == 0 == p.bookSeq
    ensures Equivalent(MatchPostOnly(b, o).book, MatchPostOnly(c, p).book)
  {
    hide PlacedAlike;
    var q, r := b.Queue(o.side.Opposite()), c.Queue(o.side.Opposite());
    if q != [] { assert Core(q[0]) == Core(r[0]); }
    if MatchPostOnly(b, o).order.status == New {
      AddAlike(b, c, o.(status := New), p.(status := New), b.stops, c.stops);
    }
  }

  // ----- stops -----

  lemma FiredAlike(b: Book, c: Book, o: Order, p: Order, s: seq<Order>, t: seq<Order>, engine: Stp)
    requires AgreeOn(b, c, s, t) && JoinAlike(b, c, o, p, s, t)
    ensures var x, y := MatchFired(b, o, engine), MatchFired(c, p, engine);
      AgreeOn(x.book, y.book, s, t) && x.trades == y.trades && x.book.stops == b.stops && y.book.stops == c.stops
      && x.book.seqNo >= b.seqNo && y.book.seqNo >= c.seqNo
  {
    hide AgreeOn, PlacedAlike, Sweep, MatchLimit;
    if o.kind == StopLoss {
      SweepAlike(b, c, Fired(o), Fired(p), s, t, engine);
    } else {
      SamePlaced(o, Fired(o), p, Fired(p), b.Queue(o.side), c.Queue(o.side));
      SamePlaced(o, Fired(o), p, Fired(p), s, t);
      LimitAlike(b, c, Fired(o), Fired(p), s, t, engine);
    }
  }

  lemma ParkAlike(b: Book, c: Book, o: Order, p: Order)
    requires Equivalent(b, c) && Core(o) == Core(p) && o.bookSeq == 0 == p.bookSeq
    ensures Equivalent(Park(b, o), Park(c, p))
  {
    hide PlacedAlike, Alike;
    var n, m := Sequenced(b, o), Sequenced(c, p);
    AlikeLength(b.stops, c.stops);
    AlikeLength(b.bids, c.bids);
    AlikeLength(b.asks, c.asks);
    NewestPlaced(b.bids, c.bids, n, m);
    NewestPlaced(b.asks, c.asks, n, m);
    NewestPlaced(b.stops, c.stops, n, m);
    AppendAlike(b.stops, c.stops, n, m);
    AppendPlaced(b.bids, c.bids, b.stops, c.stops, n, m);
    AppendPlaced(b.asks, c.asks, b.stops, c.stops, n, m);
    AppendPlacedSelf(b.stops, c.stops, n, m);
  }

  lemma AppendAlike(q: seq<Order>, r: seq<Order>, o: Order, p: Order)
    requires Alike(q, r) && Core(o) == Core(p)
    ensures Alike(q + [o], r + [p])
  {
  }

  lemma AppendPlaced(q: seq<Order>, r: seq<Order>, s: seq<Order>, t: seq<Order>, o: Order, p: Order)
    requires PlacedAlike(q, r, s, t) && PlacedAlike(q, r, [o], [p])
    ensures PlacedAlike(q, r, s + [o], t + [p])
  {
    assert [o][0] == o && [p][0] == p;
  }

  lemma AppendPlacedSelf(s: seq<Order>, t: seq<Order>, o: Order, p: Order)
    requires PlacedAlike(s, t, s, t) && PlacedAlike(s, t, [o], [p])
    ensures PlacedAlike(s + [o], t + [p], s + [o], t + [p])
  {
    assert [o][0] == o && [p][0] == p;
  }

  lemma StopAlike(b: Book, c: Book, o: Order, p: Order, engine: Stp)
    requires Equivalent(b, c) && Core(o) == Core(p) && o.bookSeq == 0 == p.bookSeq
    ensures var x, y := MatchStop(b, o, engine), MatchStop(c, p, engine);
      Equivalent(x.book, y.book) && x.trades == y.trades
  {
    hide PlacedAlike, Alike, Bounded, MatchFired, Park;
    FiredAlike(b, c, o, p, b.stops, c.stops, engine);
    ParkAlike(b, c, o.(status := New), p.(status := New));
  }

  lemma {:induction false} SelectAlike(s: seq<Order>, t: seq<Order>, x: int, y: int, fire: bool)
    requires Alike(s, t) && SameLast(x, y)
    ensures Alike(Select(s, x, fire), Select(t, y, fire))
  {
    if s != [] {
      assert Core(s[0]) == Core(t[0]);
      SelectAlike(s[1..], t[1..], x, y, fire);
    }
  }

  /** What is selected from two lists that are placed alike is placed alike. */
  lemma {:induction false} SelectPlaced(q: seq<Order>, r: seq<Order>, s: seq<Order>, t: seq<Order>, x: int, y: int, fire: bool)
    requires PlacedAlike(q, r, s, t) && Alike(s, t) && SameLast(x, y)
    ensures PlacedAlike(q, r, Select(s, x, fire), Select(t, y, fire))
    decreases |s|
  {
    if s != [] {
      assert Core(s[0]) == Core(t[0]);
      SelectPlaced(q, r, s[1..], t[1..], x, y, fire);
      HeadPlaced(q, r, s, t);
      PrependPlaced(q, r, Select(s[1..], x, fire), Select(t[1..], y, fire), s[0], t[0]);
    }
  }

  lemma HeadPlaced(q: seq<Order>, r: seq<Order>, s: seq<Order>, t: seq<Order>)
    requires PlacedAlike(q, r, s, t) && s != []
    ensures PlacedAlike(q, r, [s[0]], [t[0]]) && PlacedAlike(q, r, s[1..], t[1..])
  {
  }

  lemma PrependPlaced(q: seq<Order>, r: seq<Order>, s: seq<Order>, t: seq<Order>, o: Order, p: Order)
    requires PlacedAlike(q, r, s, t) && PlacedAlike(q, r, [o], [p])
    ensures PlacedAlike(q, r, [o] + s, [p] + t)
  {
    assert [o][0] == o && [p][0] == p;
  }

  /** Two selections, one from the stops as seen with each last price. */
  lemma SelectionsPlaced(s: seq<Order>, t: seq<Order>, x: int, y: int, fire: bool, fire': bool)
    requires Alike(s, t) && SameLast(x, y) && PlacedAlike(s, t, s, t)
    ensures PlacedAlike(Select(s, x, fire), Select(t, y, fire), Select(s, x, fire'), Select(t, y, fire'))
  {
    hide PlacedAlike, Alike, Select;
    SelectPlaced(s, t, s, t, x, y, fire);
    PlacedSwaps(s, t, Select(s, x, fire), Select(t, y, fire));
    SelectPlaced(Select(s, x, fire), Select(t, y, fire), s, t, x, y, fire');
  }

  lemma {:induction false} SelectBounded(s: seq<Order>, x: int, fire: bool, n: nat)
    requires Bounded(s, n)
    ensures Bounded(Select(s, x, fire), n)
  {
    if s != [] {
      assert s[0] in s;
      SelectBounded(s[1..], x, fire, n);
    }
  }

  /** The books agree on a selection of the stops. */
  lemma AgreeOnSelected(b: Book, c: Book, fire: bool)
    requires Equivalent(b, c)
    ensures AgreeOn(b, c, Select(b.stops, b.last, fire), Select(c.stops, c.last, fire))
  {
    hide PlacedAlike, Alike, Bounded, Select;
    SelectAlike(b.stops, c.stops, b.last, c.last, fire);
    SelectPlaced(b.bids, c.bids, b.stops, c.stops, b.last, c.last, fire);
    SelectPlaced(b.asks, c.asks, b.stops, c.stops, b.last, c.last, fire);
    SelectionsPlaced(b.stops, c.stops, b.last, c.last, fire, fire);
    SelectBounded(b.stops, b.last, fire, b.seqNo);
    SelectBounded(c.stops, c.last, fire, c.seqNo);
  }

  /** The stops still to fire, and those that stay parked. */
  ghost predicate Waiting(b: Book, c: Book, f: seq<Order>, g: seq<Order>) {
    Equivalent(b, c) && AgreeOn(b, c, f, g) && PlacedAlike(f, g, b.stops, c.stops)
  }

  lemma HeadJoins(b: Book, c: Book, f: seq<Order>, g: seq<Order>)
    requires Waiting(b, c, f, g) && f != []
    ensures Core(f[0]) == Core(g[0]) && g != [] && AgreeOn(b, c, f[1..], g[1..])
    ensures JoinAlike(b, c, f[0], g[0], b.stops, c.stops) && JoinAlike(b, c, f[0], g[0], f[1..], g[1..])
    ensures PlacedAlike(f[1..], g[1..], b.stops, c.stops)
  {
    hide PlacedAlike;
    WaitingLengths(b, c, f, g);
    assert Core(f[0]) == Core(g[0]);
    assert f[0] in f && g[0] in g;
    SplitPlaced(f, g, b.bids, c.bids);
    SplitPlaced(f, g, b.asks, c.asks);
    SplitPlaced(f, g, b.stops, c.stops);
    SplitPlaced(f, g, f, g);
    SplitPlaced(f, g, f[1..], g[1..]);
  }

  lemma SplitPlaced(f: seq<Order>, g: seq<Order>, q: seq<Order>, r: seq<Order>)
    requires f != [] && (PlacedAlike(f, g, q, r) || PlacedAlike(q, r, f, g))
    ensures PlacedAlike([f[0]], [g[0]], q, r) && PlacedAlike(f[1..], g[1..], q, r)
    ensures PlacedAlike(q, r, [f[0]], [g[0]]) && PlacedAlike(q, r, f[1..], g[1..])
  {
  }

  lemma {:induction false} FireAllAlike(b: Book, c: Book, f: seq<Order>, g: seq<Order>, engine: Stp)
    requires Waiting(b, c, f, g)
    ensures var (b', t), (c', u) := FireAll(b, f, engine), FireAll(c, g, engine);
      Equivalent(b', c') && t == u
    decreases |f|
  {
    hide PlacedAlike, Bounded, MatchFired, AgreeOn, JoinAlike;
    WaitingLengths(b, c, f, g);
    if f != [] {
      HeadJoins(b, c, f, g);
      FiredAlike(b, c, f[0], g[0], b.stops, c.stops, engine);
      FiredAlike(b, c, f[0], g[0], f[1..], g[1..], engine);
      FireAllAlike(MatchFired(b, f[0], engine).book, MatchFired(c, g[0], engine).book, f[1..], g[1..], engine);
    }
  }

  lemma WaitingLengths(b: Book, c: Book, f: seq<Order>, g: seq<Order>)
    ensures Waiting(b, c, f, g) ==> |f| == |g|
  {
  }

  lemma TriggerAlike(b: Book, c: Book, engine: Stp)
    requires Equivalent(b, c)
    ensures var (b', t), (c', u) := TriggerStops(b, engine), TriggerStops(c, engine);
      Equivalent(b', c') && t == u
  {
    hide PlacedAlike, Alike, Bounded, FireAll, Select;
    AgreeOnSelected(b, c, false);
    AgreeOnSelected(b, c, true);
    SelectionsPlaced(b.stops, c.stops, b.last, c.last, true, false);
    FireAllAlike(b.(stops := Select(b.stops, b.last, false)), c.(stops := Select(c.stops, c.last, false)),
                 Select(b.stops, b.last, true), Select(c.stops, c.last, true), engine);
  }

  // ----- every input -----

  lemma ProcessAlike(b: Book, c: Book, o: Order, p: Order, engine: Stp)
    requires Equivalent(b, c) && Core(o) == Core(p) && o.bookSeq == 0 == p.bookSeq && o.remaining == o.quantity
    ensures var x, y := Process(b, o, engine), Process(c, p, engine);
      Equivalent(x.book, y.book) && x.trades == y.trades
  {
    hide AgreeOn, Sweep, MatchLimit, MatchPostOnly, MatchStop;
    if o.quantity > 0 {
      match o.kind
      case Limit => LimitAlike(b, c, o, p, b.stops, c.stops, engine);
      case PostOnly =>
        PostOnlyAlike(b, c, o, p);
        PostOnlyTradesNothing(b, o);
        PostOnlyTradesNothing(c, p);
      case Market | ImmediateOrCancel => SweepAlike(b, c, o, p, b.stops, c.stops, engine);
      case StopLoss | StopLimit => StopAlike(b, c, o, p, engine);
    }
  }

  lemma PostOnlyTradesNothing(b: Book, o: Order)
    ensures MatchPostOnly(b, o).trades == []
  {
  }

  lemma {:induction false} FindAlike(q: seq<Order>, r: seq<Order>, id: Id)
    requires Alike(q, r)
    ensures Find(q, id) == Find(r, id)
  {
    if q != [] {
      assert Core(q[0]) == Core(r[0]);
      FindAlike(q[1..], r[1..], id);
    }
  }

  lemma WithoutAt(q: seq<Order>, id: Id, n: nat)
    requires n < |Without(q, id)|
    ensures var k := if n < Find(q, id) then n else n + 1; k < |q| && Without(q, id)[n] == q[k]
  {
  }

  lemma WithoutAlike(q: seq<Order>, r: seq<Order>, s: seq<Order>, t: seq<Order>, id: Id)
    requires Alike(q, r) && PlacedAlike(q, r, s, t)
    ensures Alike(Without(q, id), Without(r, id)) && PlacedAlike(Without(q, id), Without(r, id), s, t)
  {
    hide Core, Find;
    FindAlike(q, r, id);
    var v, w := Without(q, id), Without(r, id);
    assert |v| == |w|;
    hide Without;
    forall n | 0 <= n < |v| ensures Core(v[n]) == Core(w[n]) {
      WithoutAt(q, id, n);
      WithoutAt(r, id, n);
    }
    forall n, m | 0 <= n < |v| && 0 <= m < |s|
      ensures v[n].bookSeq < s[m].bookSeq <==> w[n].bookSeq < t[m].bookSeq
      ensures s[m].bookSeq < v[n].bookSeq <==> t[m].bookSeq < w[n].bookSeq
    {
      WithoutAt(q, id, n);
      WithoutAt(r, id, n);
    }
  }

  lemma WithoutBounded(q: seq<Order>, id: Id, n: nat)
    requires Bounded(q, n)
    ensures Bounded(Without(q, id), n + 1)
  {
  }

  lemma LookupAlike(b: Book, c: Book, id: Id)
    requires Equivalent(b, c)
    ensures Lookup(b, id).Some? <==> Lookup(c, id).Some?
    ensures Lookup(b, id).Some? ==> Core(Lookup(b, id).value) == Core(Lookup(c, id).value)
  {
    hide PlacedAlike;
    FindAlike(b.bids, c.bids, id);
    FindAlike(b.asks, c.asks, id);
    var i, j := Find(b.bids, id), Find(b.asks, id);
    assert i < |b.bids| ==> Core(b.bids[i]) == Core(c.bids[i]);
    assert j < |b.asks| ==> Core(b.asks[j]) == Core(c.asks[j]);
  }

  lemma RemoveAlike(b: Book, c: Book, o: Order, p: Order)
    requires Equivalent(b, c) && Core(o) == Core(p)
    ensures Equivalent(Remove(b, o), Remove(c, p))
  {
    hide Without, PlacedAlike, Alike;
    WithoutAlike(b.Queue(o.side), c.Queue(o.side), b.stops, c.stops, o.id);
    WithoutBounded(b.Queue(o.side), o.id, b.seqNo);
    WithoutBounded(c.Queue(o.side), o.id, c.seqNo);
  }

  lemma CancelAlike(b: Book, c: Book, id: Id, user: User)
    requires Equivalent(b, c)
    ensures Equivalent(Cancel(b, id, user).0, Cancel(c, id, user).0)
  {
    hide Equivalent, Lookup, Remove;
    LookupAlike(b, c, id);
    if Lookup(b, id).Some? {
      RemoveAlike(b, c, Lookup(b, id).value, Lookup(c, id).value);
    }
  }

  /** Whatever is submitted is as NewOrder makes it. */
  predicate Usual(input: Input) {
    input.Submit? ==> Submittable(input.order)
  }

  lemma StepAlike(b: Book, c: Book, input: Input, engine: Stp)
    requires Equivalent(b, c) && Usual(input)
    ensures var (b', t), (c', u) := Step(b, input, engine), Step(c, input, engine);
      Equivalent(b', c') && t == u
  {
    hide Equivalent, Process, Cancel, TriggerStops;
    match input
    case Submit(o) => ProcessAlike(b, c, o, o, engine);
    case Withdraw(id, user) => CancelAlike(b, c, id, user);
    case Trigger => TriggerAlike(b, c, engine);
  }

  /** Equivalent books answer the same inputs, stop orders among them, with the same trades, for ever. */
  lemma {:induction false} RunAlike(b: Book, c: Book, inputs: seq<Input>, engine: Stp)
    requires Equivalent(b, c) && forall i :: 0 <= i < |inputs| ==> Usual(inputs[i])
    ensures var (b', t), (c', u) := Run(b, inputs, engine), Run(c, inputs, engine);
      Equivalent(b', c') && t == u
    decreases |inputs|
  {
    hide Equivalent, Step;
    if inputs != [] {
      var n := |inputs| - 1;
      RunAlike(b, c, inputs[..n], engine);
      StepAlike(Run(b, inputs[..n], engine).0, Run(c, inputs[..n], engine).0, inputs[n], engine);
    }
  }

  lemma EquivalentThen(b: Book, c: Book, d: Book)
    requires Equivalent(b, c) && Equivalent(c, d)
    ensures Equivalent(b, d)
  {
  }

  lemma EquivalentBack(b: Book, c: Book)
    requires Equivalent(b, c)
    ensures Equivalent(c, b)
  {
  }
}
