/** What every operation of the engine keeps: well-formed books, and never a crossed one. */
module MatchingLaws {
  import opened MatchingTypes
  import opened BookSpec
  import opened MatchingSpec

  // ----- the shape of a walk -----

  /** q lost a prefix and perhaps part of the remaining quantity of its new head. */
  ghost predicate Shrunk(q: seq<Order>, rest: seq<Order>) {
    && |rest| <= |q|
    && (rest != [] ==>
          var k := |q| - |rest|;
          rest[1..] == q[k + 1..] && Reduced(q[k], rest[0]))
  }

  ghost predicate Reduced(o: Order, r: Order) {
    r == o || (0 < r.remaining < o.remaining && r == MakerAfter(o, o.remaining - r.remaining))
  }

  predicate Active(o: Order) {
    o.remaining >= 0 && o.filled >= 0 && o.filled + o.remaining == o.quantity
  }

  /** Everything of an order that matching never touches. */
  predicate SameTerms(a: Order, b: Order) {
    && a.id == b.id && a.user == b.user && a.side == b.side && a.kind == b.kind && a.price == b.price
    && a.quantity == b.quantity && a.tif == b.tif && a.bookSeq == b.bookSeq && a.stp == b.stp
  }

  lemma ShrunkTail(q: seq<Order>, rest: seq<Order>)
    ensures q != [] && Shrunk(q[1..], rest) ==> Shrunk(q, rest)
  {
  }

  lemma {:induction false} WalkRest(taker: Order, q: seq<Order>, engine: Stp)
    requires forall o :: o in q ==> o.remaining > 0
    ensures Shrunk(q, Walk(taker, q, engine).rest)
    decreases |q|
  {
    var rest := Walk(taker, q, engine).rest;
    if taker.remaining > 0 && q != [] && Crosses(taker, q[0].price.Units()) {
      var qty := FillQty(taker, q[0]);
      if SelfTrade(taker, q[0], engine) {
        if Mode(taker, engine) == CancelMaker {
          WalkRest(taker, q[1..], engine);
          ShrunkTail(q, rest);
        }
      } else if qty < q[0].remaining {
        assert rest == [MakerAfter(q[0], qty)] + q[1..];
        assert Reduced(q[0], rest[0]);
      } else {
        WalkRest(TakerAfter(taker, qty), q[1..], engine);
        ShrunkTail(q, rest);
      }
    } else {
      assert rest == q;
    }
  }

  lemma {:induction false} WalkTaker(taker: Order, q: seq<Order>, engine: Stp)
    requires Active(taker)
    requires forall o :: o in q ==> o.remaining > 0
    ensures var t := Walk(taker, q, engine).taker;
      Active(t) && SameTerms(t, taker) && t.filled >= taker.filled
    decreases |q|
  {
    if taker.remaining > 0 && q != [] && Crosses(taker, q[0].price.Units()) {
      if SelfTrade(taker, q[0], engine) {
        if Mode(taker, engine) == CancelMaker {
          WalkTaker(taker, q[1..], engine);
        }
      } else if FillQty(taker, q[0]) == q[0].remaining {
        WalkTaker(TakerAfter(taker, FillQty(taker, q[0])), q[1..], engine);
      }
    }
  }

  /** A shrunk queue holds old orders with their terms and priority. */
  lemma ShrunkOrders(q: seq<Order>, rest: seq<Order>) returns (k: nat)
    requires Shrunk(q, rest)
    ensures |q| == k + |rest|
    ensures forall i :: 0 <= i < |rest| ==> SameTerms(rest[i], q[k + i])
  {
    k := |q| - |rest|;
    assert forall i :: 0 < i < |rest| ==> rest[i] == rest[1..][i - 1];
  }

  lemma ShrunkKeepsAbsent(q: seq<Order>, rest: seq<Order>, id: Id)
    requires Shrunk(q, rest) && AbsentFrom(id, q)
    ensures AbsentFrom(id, rest)
  {
    var k := ShrunkOrders(q, rest);
    assert forall i :: 0 <= i < |rest| ==> rest[i].id == q[k + i].id;
  }

  lemma ShrunkKeepsQueue(side: Side, q: seq<Order>, rest: seq<Order>, seqNo: nat, seqNo': nat)
    requires GoodQueue(side, q, seqNo) && Shrunk(q, rest) && seqNo <= seqNo'
    ensures GoodQueue(side, rest, seqNo')
  {
    var k := ShrunkOrders(q, rest);
    forall i, j | 0 <= i < j < |rest| ensures Precedes(rest[i], rest[j]) {
      assert Precedes(q[k + i], q[k + j]);
    }
    forall i | 0 <= i < |rest| ensures Resting(rest[i]) {
      assert Resting(q[k + i]);
    }
  }

  lemma ShrunkKeepsApart(q: seq<Order>, rest: seq<Order>, o: Order)
    requires Shrunk(q, rest) && ApartFrom(q, o)
    ensures ApartFrom(rest, o)
  {
    var k := ShrunkOrders(q, rest);
    forall i | 0 <= i < |rest| ensures Apart(rest[i], o) {
      assert Apart(q[k + i], o);
    }
  }

  // ----- joining the book -----

  /** An order that is not in the book and shares no sequence number with it. */
  ghost predicate Joins(b: Book, o: Order) {
    o.bookSeq <= b.seqNo && ApartFrom(b.bids, o) && ApartFrom(b.asks, o) && ApartFrom(b.stops, o)
  }

  lemma ShrinkKeepsSeparate(b: Book, side: Side, rest: seq<Order>)
    requires Separate(b) && Shrunk(b.Queue(side), rest)
    ensures Separate(b.WithQueue(side, rest))
  {
    var q := b.Queue(side);
    var k := ShrunkOrders(q, rest);
    forall i, j | 0 <= i < j < |rest| ensures Apart(rest[i], rest[j]) {
      assert Apart(q[k + i], q[k + j]);
    }
    if side == Buy {
      forall o | o in b.asks || o in b.stops ensures ApartFrom(rest, o) {
        ShrunkKeepsApart(q, rest, o);
      }
    } else {
      forall o | o in b.stops ensures ApartFrom(rest, o) {
        ShrunkKeepsApart(q, rest, o);
      }
      forall i | 0 <= i < |rest| ensures ApartFrom(b.bids, rest[i]) {
        assert ApartFrom(b.bids, q[k + i]);
      }
    }
  }

  lemma SweepKeeps(b: Book, o: Order, engine: Stp)
    requires WellFormed(b) && Active(o) && Joins(b, o)
    ensures var s := Sweep(b, o, engine);
      && WellFormed(s.book) && Joins(s.book, s.order)
      && Active(s.order) && SameTerms(s.order, o)
      && s.book.stops == b.stops && s.book.Queue(o.side) == b.Queue(o.side)
      && Shrunk(b.Queue(o.side.Opposite()), s.book.Queue(o.side.Opposite()))
  {
    hide Walk;
    var opposite := b.Queue(o.side.Opposite());
    var s := Sweep(b, o, engine);
    var rest := s.book.Queue(o.side.Opposite());
    WalkRest(o, opposite, engine);
    WalkTaker(o, opposite, engine);
    ShrunkKeepsQueue(o.side.Opposite(), opposite, rest, b.seqNo, s.book.seqNo);
    assert GoodQueue(o.side, b.Queue(o.side), s.book.seqNo);
    ShrinkKeepsSeparate(b, o.side.Opposite(), rest);
    ShrunkKeepsApart(opposite, rest, o);
  }

  lemma ShrunkKeepsUncrossed(b: Book, side: Side, rest: seq<Order>)
    requires Uncrossed(b) && Shrunk(b.Queue(side), rest)
    ensures Uncrossed(b.WithQueue(side, rest))
  {
    var k := ShrunkOrders(b.Queue(side), rest);
    assert forall i :: 0 <= i < |rest| ==> rest[i].price == b.Queue(side)[k + i].price;
  }

  lemma InsertKeepsApart(q: seq<Order>, o: Order)
    requires PairwiseApart(q) && ApartFrom(q, o) && o.bookSeq != 0
    ensures PairwiseApart(Insert(q, o))
  {
    var s, r := Insert(q, o), Rank(q, o);
    forall i, j | 0 <= i < j < |s| ensures Apart(s[i], s[j]) {
      if i == r { assert s[j] in q; } else if j == r { assert s[i] in q; }
    }
  }

  // ----- every operation keeps the book well formed -----

  /** A well-formed book in which whatever could join before, and is not o, still can. */
  ghost predicate Succeeds(b: Book, b': Book, o: Order) {
    && WellFormed(b')
    && (forall id :: id != o.id && Absent(id, b) ==> Absent(id, b'))
    && (forall x :: Apart(o, x) && Joins(b, x) ==> Joins(b', x))
  }

  lemma AddKeeps(b: Book, o: Order)
    requires WellFormed(b) && Resting(o) && Joins(b, o)
    ensures Succeeds(b, Add(b, o), o)
  {
    hide Insert, Precedes;
    var q, n := b.Queue(o.side), Sequenced(b, o);
    assert ApartFrom(b.bids, n) && ApartFrom(b.asks, n) && ApartFrom(b.stops, n);
    InsertSorted(q, n);
    InsertContents(q, n);
    InsertKeepsApart(q, n);
    assert GoodQueue(o.side, Insert(q, n), b.seqNo + 1);
    assert GoodQueue(o.side.Opposite(), b.Queue(o.side.Opposite()), b.seqNo + 1);
    assert Separate(Add(b, o));
  }

  lemma SweepSucceeds(b: Book, o: Order, engine: Stp)
    requires WellFormed(b) && Active(o) && Joins(b, o)
    ensures Succeeds(b, Sweep(b, o, engine).book, o)
  {
    hide Walk;
    SweepKeeps(b, o, engine);
    var side := o.side.Opposite();
    var q, rest := b.Queue(side), Sweep(b, o, engine).book.Queue(side);
    forall x | Absent(x, b) ensures AbsentFrom(x, rest) {
      ShrunkKeepsAbsent(q, rest, x);
    }
    forall x | Joins(b, x) ensures Joins(Sweep(b, o, engine).book, x) {
      ShrunkKeepsApart(q, rest, x);
    }
  }

  lemma LimitSucceeds(b: Book, o: Order, engine: Stp)
    requires WellFormed(b) && Active(o) && Joins(b, o) && o.price.At?
    ensures Succeeds(b, MatchLimit(b, o, engine).book, o)
  {
    hide Walk;
    SweepKeeps(b, o, engine);
    SweepSucceeds(b, o, engine);
    var s := Sweep(b, o, engine);
    if Rests(s.order) {
      AddKeeps(s.book, s.order.(status := if s.order.status == PartiallyFilled then PartiallyFilled else New));
    }
  }

  lemma FiredSucceeds(b: Book, o: Order, engine: Stp)
    requires WellFormed(b) && Parked(o) && Joins(b, o)
    ensures Succeeds(b, MatchFired(b, o, engine).book, o)
  {
    hide Walk;
    if Fired(o).kind == Market {
      SweepSucceeds(b, Fired(o), engine);
    } else {
      LimitSucceeds(b, Fired(o), engine);
    }
  }

  lemma ParkSucceeds(b: Book, o: Order)
    requires WellFormed(b) && Parked(o) && Joins(b, o)
    ensures Succeeds(b, Park(b, o), o)
  {
    var n := Sequenced(b, o);
    assert ApartFrom(b.bids, n) && ApartFrom(b.asks, n) && ApartFrom(b.stops, n);
    assert GoodQueue(Buy, b.bids, b.seqNo + 1) && GoodQueue(Sell, b.asks, b.seqNo + 1);
  }

  /** What a submitter must provide: a fresh order whose id the book does not know. */
  ghost predicate Acceptable(b: Book, o: Order) {
    Submittable(o) && Absent(o.id, b)
  }

  lemma ProcessSucceeds(b: Book, o: Order, engine: Stp)
    requires WellFormed(b) && Acceptable(b, o)
    ensures Succeeds(b, Process(b, o, engine).book, o)
  {
    hide Walk;
    if o.quantity > 0 {
      match o.kind
      case Limit => LimitSucceeds(b, o, engine);
      case Market => SweepSucceeds(b, o, engine);
      case ImmediateOrCancel => SweepSucceeds(b, o, engine);
      case PostOnly =>
        if MatchPostOnly(b, o).order.status == New { AddKeeps(b, o.(status := New)); }
      case _ =>
        if o.stopPrice.Units() > 0 {
          if Triggers(o, b.last) { FiredSucceeds(b, o, engine); } else { ParkSucceeds(b, o.(status := New)); }
        }
    }
  }

  lemma WithoutContents(q: seq<Order>, id: Id)
    ensures forall o :: o in Without(q, id) ==> o in q
    ensures forall o :: o in q && o.id != id ==> o in Without(q, id)
    ensures PairwiseApart(q) ==> PairwiseApart(Without(q, id)) && AbsentFrom(id, Without(q, id))
  {
    var i := Find(q, id);
    if i < |q| {
      var r := Without(q, id);
      assert q == q[..i] + [q[i]] + q[i + 1..];
      if PairwiseApart(q) {
        forall k | 0 <= k < |r| ensures r[k].id != id {
          if k >= i { assert Apart(q[i], q[k + 1]); }
        }
      }
    }
  }

  lemma RemoveSucceeds(b: Book, o: Order)
    requires WellFormed(b)
    ensures Succeeds(b, Remove(b, o), o)
    ensures Uncrossed(b) ==> Uncrossed(Remove(b, o))
  {
    var q := b.Queue(o.side);
    WithoutContents(q, o.id);
    WithoutSorted(q, o.id);
    assert GoodQueue(Buy, b.bids, b.seqNo + 1) && GoodQueue(Sell, b.asks, b.seqNo + 1);
    assert Separate(Remove(b, o));
  }

  lemma {:induction false} SelectContents(stops: seq<Order>, last: int, fire: bool)
    ensures forall o :: o in Select(stops, last, fire) <==> o in stops && Triggers(o, last) == fire
    ensures PairwiseApart(stops) ==> PairwiseApart(Select(stops, last, fire))
  {
    if stops != [] {
      SelectContents(stops[1..], last, fire);
      assert forall o :: o in stops <==> o == stops[0] || o in stops[1..];
      if PairwiseApart(stops) {
        forall i, j | 0 <= i < j < |stops[1..]| ensures Apart(stops[1..][i], stops[1..][j]) {
          assert Apart(stops[i + 1], stops[j + 1]);
        }
        forall o | o in stops[1..] ensures Apart(stops[0], o) {
          var k :| 0 <= k < |stops[1..]| && o == stops[1..][k];
          assert Apart(stops[0], stops[k + 1]);
        }
      }
    }
  }

  ghost predicate AllJoin(b: Book, fired: seq<Order>) {
    PairwiseApart(fired) && forall o :: o in fired ==> Parked(o) && Joins(b, o)
  }

  lemma AllJoinTail(b: Book, fired: seq<Order>, engine: Stp)
    requires WellFormed(b) && AllJoin(b, fired) && fired != []
    ensures Succeeds(b, MatchFired(b, fired[0], engine).book, fired[0])
    ensures AllJoin(MatchFired(b, fired[0], engine).book, fired[1..])
  {
    FiredSucceeds(b, fired[0], engine);
    forall o | o in fired[1..] ensures Joins(MatchFired(b, fired[0], engine).book, o) {
      var k :| 0 <= k < |fired[1..]| && o == fired[1..][k];
      assert Apart(fired[0], fired[k + 1]);
    }
    forall i, j | 0 <= i < j < |fired[1..]| ensures Apart(fired[1..][i], fired[1..][j]) {
      assert Apart(fired[i + 1], fired[j + 1]);
    }
  }

  lemma {:induction false} FireAllSucceeds(b: Book, fired: seq<Order>, engine: Stp)
    requires WellFormed(b) && AllJoin(b, fired)
    ensures WellFormed(FireAll(b, fired, engine).0)
    ensures forall id :: Absent(id, b) && AbsentFrom(id, fired) ==> Absent(id, FireAll(b, fired, engine).0)
    decreases |fired|
  {
    if fired != [] {
      AllJoinTail(b, fired, engine);
      FireAllSucceeds(MatchFired(b, fired[0], engine).book, fired[1..], engine);
    }
  }

  lemma PartsApart(stops: seq<Order>, a: Order, z: Order)
    requires PairwiseApart(stops) && a in stops && z in stops && a != z
    ensures Apart(a, z)
  {
    var i :| 0 <= i < |stops| && stops[i] == a;
    var j :| 0 <= j < |stops| && stops[j] == z;
    assert i < j ==> Apart(stops[i], stops[j]);
    assert j < i ==> Apart(stops[j], stops[i]);
  }

  lemma SelectedJoin(b: Book)
    requires WellFormed(b)
    ensures var parked := b.(stops := Select(b.stops, b.last, false));
      WellFormed(parked) && AllJoin(parked, Select(b.stops, b.last, true))
  {
    SelectContents(b.stops, b.last, false);
    SelectContents(b.stops, b.last, true);
    forall o, a | o in Select(b.stops, b.last, true) && a in Select(b.stops, b.last, false)
      ensures Apart(a, o)
    {
      PartsApart(b.stops, a, o);
    }
  }

  lemma TriggerSucceeds(b: Book, engine: Stp)
    requires WellFormed(b)
    ensures WellFormed(TriggerStops(b, engine).0)
    ensures forall id :: Absent(id, b) ==> Absent(id, TriggerStops(b, engine).0)
  {
    SelectContents(b.stops, b.last, false);
    SelectContents(b.stops, b.last, true);
    SelectedJoin(b);
    FireAllSucceeds(b.(stops := Select(b.stops, b.last, false)), Select(b.stops, b.last, true), engine);
  }

  // ----- runs -----

  ghost predicate Unused(id: Id, inputs: seq<Input>) {
    forall i :: 0 <= i < |inputs| && inputs[i].Submit? ==> inputs[i].order.id != id
  }

  /** Every submitted order is as NewOrder makes it, under an id used once. */
  ghost predicate Legal(inputs: seq<Input>) {
    forall i :: 0 <= i < |inputs| && inputs[i].Submit? ==>
      Submittable(inputs[i].order) && Unused(inputs[i].order.id, inputs[..i])
  }

  lemma LegalPrefix(inputs: seq<Input>, n: nat)
    requires Legal(inputs) && n <= |inputs|
    ensures Legal(inputs[..n])
  {
    assert forall i :: 0 <= i < n ==> inputs[..n][..i] == inputs[..i];
  }

  lemma StepSucceeds(b: Book, input: Input, engine: Stp)
    requires WellFormed(b) && (input.Submit? ==> Acceptable(b, input.order))
    ensures WellFormed(Step(b, input, engine).0)
    ensures forall id :: Absent(id, b) && (input.Submit? ==> input.order.id != id) ==>
      Absent(id, Step(b, input, engine).0)
  {
    hide Walk;
    match input
    case Submit(o) => ProcessSucceeds(b, o, engine);
    case Withdraw(id, user) =>
      if Lookup(b, id).Some? {
        RemoveSucceeds(b, Lookup(b, id).value);
        WithoutContents(b.Queue(Lookup(b, id).value.side), id);
      }
    case Trigger => TriggerSucceeds(b, engine);
  }

  lemma {:induction false} RunIsWellFormed(inputs: seq<Input>, engine: Stp)
    requires Legal(inputs)
    ensures WellFormed(Run(EMPTY, inputs, engine).0)
    ensures forall id :: Unused(id, inputs) ==> Absent(id, Run(EMPTY, inputs, engine).0)
    decreases |inputs|
  {
    if inputs != [] {
      var n := |inputs| - 1;
      LegalPrefix(inputs, n);
      RunIsWellFormed(inputs[..n], engine);
      StepSucceeds(Run(EMPTY, inputs[..n], engine).0, inputs[n], engine);
      forall id | Unused(id, inputs) ensures Unused(id, inputs[..n]) {
      }
    }
  }

  lemma LastIsAcceptable(inputs: seq<Input>, engine: Stp)
    requires Legal(inputs) && inputs != []
    ensures var n := |inputs| - 1;
      inputs[n].Submit? ==> Acceptable(Run(EMPTY, inputs[..n], engine).0, inputs[n].order)
  {
    LegalPrefix(inputs, |inputs| - 1);
    RunIsWellFormed(inputs[..|inputs| - 1], engine);
  }
}
