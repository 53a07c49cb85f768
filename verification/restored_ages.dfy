/**
 * Recovering more than once. A replayed order is as old as its journal record, so a recovered book can be snapshot and
 * restored again like one that never crashed, and so can every book the restarted engine comes to.
 */
module RestoredAges {
  import opened MatchingTypes
  import opened BookSpec
  import opened MatchingSpec
  import opened MatchingLaws
  import opened WriteAheadLog
  import opened RecoverySpec
  import opened RestoreLaws
  import opened EquivalenceLaws
  import opened RecoveryLaws
  import opened ArrivalLaws
  import opened SecondCrashLaws

  /** The journal's clock runs on from the k-th append, ahead of every order in the snapshot. */
  ghost predicate StampedInOrder(events: seq<Event>, k: nat, s: Snapshot) {
    && (forall i, j :: k <= i < j < |events| ==> events[i].now < events[j].now)
    && (forall o, i :: o in s.orders && k <= i < |events| ==> o.createdAt < events[i].now)
  }

  // ----- the restored book -----

  lemma AgreesIsAged(side: Side, q: seq<Order>, n: nat, t: int)
    requires GoodQueue(side, q, n) && AgesAgree(q) && forall o :: o in q ==> o.createdAt <= t
    ensures Aged(q, t)
  {
    forall x, y | x in q && y in q && x.bookSeq < y.bookSeq && x.price.Units() == y.price.Units()
      ensures x.createdAt < y.createdAt
    {
      var i :| 0 <= i < |q| && q[i] == x;
      var j :| 0 <= j < |q| && q[j] == y;
      assert i < j ==> Precedes(q[i], q[j]);
      assert j < i ==> Precedes(q[j], q[i]);
    }
  }

  lemma SameAges(q: seq<Order>, r: seq<Order>)
    requires CopyAll(q) == CopyAll(r)
    ensures AgesAgree(q) ==> AgesAgree(r)
    ensures forall o :: o in r ==> Copied(o) in CopyAll(q)
  {
    forall i | 0 <= i < |r| ensures q[i].createdAt == r[i].createdAt && q[i].price == r[i].price {
      assert CopyAll(q)[i] == CopyAll(r)[i];
    }
    forall o | o in r ensures Copied(o) in CopyAll(q) { CopiedIn(r, o); }
  }

  /** Refilled orders have different places and different ids. */
  lemma RefilledApart(s: seq<Order>, q: seq<Order>, r: seq<Order>, side: Side, side': Side, x: Order, y: Order)
    requires Storable(s) && Refilled(side, s, q) && Refilled(side', s, r) && x in q && y in r && x != y
    ensures Apart(x, y)
  {
    assert StoredAt(s, x) && StoredAt(s, y);
    StorableApart(s, x.bookSeq - 1, y.bookSeq - 1);
  }

  lemma StorableApart(s: seq<Order>, i: int, j: int)
    ensures Storable(s) && 0 <= i < |s| && 0 <= j < |s| && i != j ==> s[i].id != s[j].id
  {
  }

  lemma RefilledPairwise(side: Side, s: seq<Order>, q: seq<Order>)
    requires Storable(s) && Refilled(side, s, q)
    ensures PairwiseApart(q)
  {
    forall i, j | 0 <= i < j < |q| ensures Apart(q[i], q[j]) {
      assert Precedes(q[i], q[j]) && q[i] in q && q[j] in q;
      RefilledApart(s, q, q, side, side, q[i], q[j]);
    }
  }

  lemma RestoredIsWellFormed(b: Book, s: Snapshot, wal: nat)
    requires WellFormed(b) && b.stops == [] && IsSnapshotOf(s, b, wal)
    ensures WellFormed(RestoreBook(s)) && RestoreBook(s).stops == []
    ensures forall id :: Absent(id, b) ==> Absent(id, RestoreBook(s))
  {
    hide Refilled, Storable, Sorted, SortByAge, Refill;
    var sorted := SortByAge(s.orders);
    SortByAgeSorts(s.orders);
    SortByAgeLength(s.orders);
    ListingIsStorable(sorted, b);
    RefillIsRefilled(sorted);
    RenumberingFits(b, sorted);
    var c := RestoreBook(s);
    QueuesAreGood(sorted, c, s.seqNo);
    forall x, y | x in c.bids && y in c.asks ensures Apart(x, y) {
      SidesOf(sorted, c, x, y);
      RefilledApart(sorted, c.bids, c.asks, Buy, Sell, x, y);
    }
    RefilledPairwise(Buy, sorted, c.bids);
    RefilledPairwise(Sell, sorted, c.asks);
    RestoredMembers(sorted, Buy, c.bids);
    RestoredMembers(sorted, Sell, c.asks);
    forall id | Absent(id, b) ensures Absent(id, c) {
      StillAbsent(b.bids, c.bids, id);
      StillAbsent(b.asks, c.asks, id);
    }
  }

  lemma QueuesAreGood(s: seq<Order>, c: Book, n: nat)
    requires Refilled(Buy, s, c.bids) && Refilled(Sell, s, c.asks) && |s| <= n
    ensures GoodQueue(Buy, c.bids, n) && GoodQueue(Sell, c.asks, n)
  {
  }

  lemma SidesOf(s: seq<Order>, c: Book, x: Order, y: Order)
    ensures Refilled(Buy, s, c.bids) && Refilled(Sell, s, c.asks) && x in c.bids && y in c.asks ==> x.side != y.side
  {
  }

  lemma StillAbsent(q: seq<Order>, r: seq<Order>, id: Id)
    requires AbsentFrom(id, q) && forall o :: o in CopyAll(r) ==> o in CopyAll(q)
    ensures AbsentFrom(id, r)
  {
    forall o | o in r ensures o.id != id {
      CopiedIn(r, o);
      var k :| 0 <= k < |q| && CopyAll(q)[k] == Copied(o);
      assert q[k] in q && q[k].id == o.id;
    }
  }

  lemma RestoredIsAged(b: Book, s: Snapshot, wal: nat, t: int)
    requires WellFormed(b) && b.stops == [] && IsSnapshotOf(s, b, wal) && AgesAgree(b.bids) && AgesAgree(b.asks)
    requires forall o :: o in s.orders ==> o.createdAt <= t
    ensures AgedBook(RestoreBook(s), t)
  {
    hide RestoreBook, AgesAgree, Aged;
    var c := RestoreBook(s);
    RestoreKeepsQueues(b, s, wal);
    RestoredIsWellFormed(b, s, wal);
    SameAges(b.bids, c.bids);
    SameAges(b.asks, c.asks);
    forall o | o in c.bids || o in c.asks ensures o.createdAt <= t { assert Copied(o) in s.orders; }
    AgreesIsAged(Buy, c.bids, c.seqNo, t);
    AgreesIsAged(Sell, c.asks, c.seqNo, t);
  }

  // ----- the replayed book -----

  /** A replayed order is created when it was journaled. */
  lemma ReplayedAge(o: Order, number: nat, now: int)
    requires Submittable(o) && o.quantity > 0
    ensures var again := OrderOf(RecordOf(o).Stamped(number, now)).value;
      again.createdAt == now && again.id == o.id && Submittable(again) && (Plain(o) ==> Plain(again))
  {
  }

  /** Replaying one more record on a book none of whose orders is younger. */
  lemma ReplayStepIsAged(c: Book, e: Event, number: nat, engine: Stp, t: int)
    requires WellFormed(c) && c.stops == [] && AgedBook(c, t) && PlainInput(e.input) && !e.input.Trigger?
    requires e.input.Submit? ==> Absent(e.input.order.id, c) && t < e.now
    ensures var c' := ReplayStep(c, RecordFor(e.input).Stamped(number, e.now), engine).0;
      && WellFormed(c') && c'.stops == [] && AgedBook(c', if e.input.Submit? then e.now else t)
      && forall id :: Absent(id, c) && (e.input.Submit? ==> e.input.order.id != id) ==> Absent(id, c')
  {
    hide Process, Cancel, WellFormed, AgedBook, Absent;
    match e.input
    case Submit(o) =>
      if o.quantity > 0 {
        ReplayedAge(o, number, e.now);
        var again := OrderOf(RecordOf(o).Stamped(number, e.now)).value;
        SubmitIsAged(c, again, engine, t);
        StepSucceeds(c, Submit(again), engine);
        PlainKeepsStops(c, Submit(again), engine);
      } else {
        JournaledOrder(o, number, e.now);
        AgedLater(c, t, e.now);
      }
    case Withdraw(id, user) =>
      CancelIsAged(c, id, user, t);
      StepSucceeds(c, e.input, engine);
      PlainKeepsStops(c, e.input, engine);
  }

  /** From some append on, the orders of a history are new to a book, and journaled one after another, after t. */
  ghost predicate Follows(c: Book, events: seq<Event>, k: nat, t: int) {
    && PlainHistory(events)
    && (forall i :: k <= i < |events| && events[i].input.Submit? ==> Absent(events[i].input.order.id, c))
    && (forall i :: k <= i < |events| ==> t < events[i].now)
    && (forall i, j :: k <= i < j < |events| ==> events[i].now < events[j].now)
  }

  /** No later than any of these appends. */
  ghost predicate UpTo(events: seq<Event>, k: nat, t: int) {
    forall i :: k <= i < |events| ==> events[i].now <= t
  }

  ghost predicate AgedTo(c: Book, t: int) {
    WellFormed(c) && c.stops == [] && AgedBook(c, t)
  }

  lemma FollowsPrefix(c: Book, events: seq<Event>, k: nat, t: int)
    requires Follows(c, events, k, t) && k < |events|
    ensures var n := |events| - 1; Follows(c, events[..n], k, t) && UpTo(events[..n], k, events[n].now - 1)
  {
    var n := |events| - 1;
    HistoryPrefix(events, n);
    assert forall i :: 0 <= i < n ==> events[..n][i] == events[i];
  }

  lemma {:induction false} ReplayKeepsAges(c: Book, events: seq<Event>, k: nat, engine: Stp, s: int, t: int)
    requires AgedTo(c, s) && Follows(c, events, k, s) && k <= |events| && s <= t && UpTo(events, k, t)
    ensures var c' := Replay(c, Journal(events), k, engine).0;
      AgedTo(c', t) && forall id :: Absent(id, c) && FreshIn(id, events) ==> Absent(id, c')
    decreases |events|
  {
    hide AgedBook, WellFormed, Replay, ReplayStep, Absent;
    if k == |events| {
      JournalNumbers(0, events);
      ReplaySkips(c, Journal(events), k, engine);
      AgedLater(c, s, t);
    } else {
      var n := |events| - 1;
      FollowsPrefix(c, events, k, s);
      ReplayKeepsAges(c, events[..n], k, engine, s, events[n].now - 1);
      ReplayOneMoreAged(c, events, k, engine, t);
    }
  }

  lemma ReplayOneMoreAged(c: Book, events: seq<Event>, k: nat, engine: Stp, t: int)
    requires k < |events| && PlainHistory(events) && UpTo(events, k, t)
    requires var last := events[|events| - 1]; last.input.Submit? ==> Absent(last.input.order.id, c)
    requires PlainHistory(events[..|events| - 1])
    requires var n := |events| - 1;
      var before := Replay(c, Journal(events[..n]), k, engine).0;
      AgedTo(before, events[n].now - 1) && forall id :: Absent(id, c) && FreshIn(id, events[..n]) ==> Absent(id, before)
    ensures var c' := Replay(c, Journal(events), k, engine).0;
      AgedTo(c', t) && forall id :: Absent(id, c) && FreshIn(id, events) ==> Absent(id, c')
  {
    hide AgedBook, WellFormed, Replay, ReplayStep, Absent;
    var n := |events| - 1;
    var e := events[n];
    var before := Replay(c, Journal(events[..n]), k, engine).0;
    OneMoreEvent(events, engine);
    if Recorded(e.io) {
      ReplayAppend(c, Journal(events[..n]), RecordFor(e.input).Stamped(n + 1, e.now), k, engine);
      assert e.input.Submit? ==> FreshIn(e.input.order.id, events[..n]);
      ReplayStepIsAged(before, e, n + 1, engine, e.now - 1);
      var after := ReplayStep(before, RecordFor(e.input).Stamped(n + 1, e.now), engine).0;
      AgedLater(after, if e.input.Submit? then e.now else e.now - 1, t);
    } else {
      AgedLater(before, e.now - 1, t);
    }
    forall id | FreshIn(id, events) ensures FreshIn(id, events[..n]) {
      assert forall i :: 0 <= i < n ==> events[..n][i] == events[i];
    }
  }

  // ----- after a recovery -----

  /** A time no order of the list is younger than. */
  function Youngest(orders: seq<Order>): (t: int)
    ensures forall o :: o in orders ==> o.createdAt <= t
  {
    if orders == [] then 0
    else
      var n := |orders| - 1;
      var t := Youngest(orders[..n]);
      if orders[n].createdAt > t then orders[n].createdAt else t
  }

  lemma FirstCrashFollows(events: seq<Event>, k: nat, s: Snapshot, engine: Stp, t: int)
    requires FirstCrash(events, k, s, engine) && StampedInOrder(events, k, s)
    requires forall i :: k <= i < |events| ==> t < events[i].now
    ensures Follows(RestoreBook(s), events, k, t)
  {
    var b := LiveRun(EMPTY, events[..k], engine).0;
    hide RestoreBook, LiveRun;
    HistoryPrefix(events, k);
    LiveIsWellFormed(events[..k], engine);
    RestoredIsWellFormed(b, s, k);
    forall i | k <= i < |events| && events[i].input.Submit? ensures Absent(events[i].input.order.id, RestoreBook(s)) {
      assert forall j :: 0 <= j < k ==> events[..k][j] == events[..i][j];
      assert FreshIn(events[i].input.order.id, events[..k]);
    }
  }

  /** The recovered book, none of whose orders is younger than the last record or the youngest order in the snapshot. */
  lemma RecoveredIsAged(events: seq<Event>, k: nat, s: Snapshot, engine: Stp, t: int)
    requires FirstCrash(events, k, s, engine) && StampedInOrder(events, k, s)
    requires UpTo(events, k, t) && forall o :: o in s.orders ==> o.createdAt <= t
    ensures var c := Recovered(s, Journal(events), engine).0;
      AgedTo(c, t) && forall id :: FreshIn(id, events) ==> Absent(id, c)
  {
    hide RestoreBook, LiveRun, AgedBook, WellFormed, Replay, Follows, StampedInOrder, AgesAgree;
    var from := if k < |events| then events[k].now - 1 else t;
    StampsAfter(events, k, s, from);
    FirstCrashFollows(events, k, s, engine, from);
    HistoryPrefix(events, k);
    LiveIsWellFormed(events[..k], engine);
    var b := LiveRun(EMPTY, events[..k], engine).0;
    RestoredIsWellFormed(b, s, k);
    RestoredIsAged(b, s, k, from);
    ReplayKeepsAges(RestoreBook(s), events, k, engine, from, t);
    forall id | FreshIn(id, events) ensures Absent(id, RestoreBook(s)) {
      assert FreshIn(id, events[..k]);
    }
  }

  lemma StampsAfter(events: seq<Event>, k: nat, s: Snapshot, t: int)
    requires StampedInOrder(events, k, s)
    requires if k < |events| then t == events[k].now - 1 else forall o :: o in s.orders ==> o.createdAt <= t
    ensures (forall i :: k <= i < |events| ==> t < events[i].now) && forall o :: o in s.orders ==> o.createdAt <= t
  {
    if k < |events| {
      forall i | k <= i < |events| ensures t < events[i].now { assert i == k || events[k].now < events[i].now; }
    }
  }

  /**
   * If the journal's clock runs on ahead of the snapshot's orders, ages agree with priorities in the recovered book, and
   * any snapshot of that is restored as faithfully as the first.
   */
  lemma RecoveredKeepsAges(events: seq<Event>, k: nat, s: Snapshot, engine: Stp, wal: nat)
    requires FirstCrash(events, k, s, engine) && StampedInOrder(events, k, s)
    ensures var c := Recovered(s, Journal(events), engine).0;
      && AgesAgree(c.bids) && AgesAgree(c.asks)
      && forall next :: IsSnapshotOf(next, c, wal) ==> SameBook(c, RestoreBook(next))
  {
    hide RestoreBook, Replay, FirstCrash, AgesAgree, Aged;
    var t := LatestStamp(events, k, s);
    FirstIsOneProcess(events, k, s, engine);
    RecoveredIsAged(events, k, s, engine, t);
    var c := Recovered(s, Journal(events), engine).0;
    AgedAgrees(Buy, c.bids, c.seqNo, t);
    AgedAgrees(Sell, c.asks, c.seqNo, t);
    RestoreIsFaithfulIff(c, wal);
  }

  function LatestStamp(events: seq<Event>, k: nat, s: Snapshot): (t: int)
    requires StampedInOrder(events, k, s)
    ensures UpTo(events, k, t) && forall o :: o in s.orders ==> o.createdAt <= t
  {
    if k < |events| then events[|events| - 1].now else Youngest(s.orders)
  }

  // ----- snapshot, crash and recovery once more -----

  /** A history in which every order is created after t, and after those before it. */
  ghost predicate Arrives(more: seq<Event>, t: int) {
    && ByArrival(more)
    && forall i :: 0 <= i < |more| && more[i].input.Submit? ==> t < more[i].input.order.createdAt
  }

  lemma {:induction false} LiveKeepsAges(c: Book, more: seq<Event>, engine: Stp, t: int) returns (u: int)
    requires AgedTo(c, t) && PlainHistory(more) && Arrives(more, t)
    requires forall i :: 0 <= i < |more| && more[i].input.Submit? ==> Absent(more[i].input.order.id, c)
    ensures AgedTo(LiveRun(c, more, engine).0, u)
    ensures u == t || exists i :: 0 <= i < |more| && more[i].input.Submit? && u == more[i].input.order.createdAt
    ensures forall id :: Absent(id, c) && FreshIn(id, more) ==> Absent(id, LiveRun(c, more, engine).0)
    decreases |more|
  {
    hide AgedBook, WellFormed, Absent, Step;
    u := t;
    if more != [] {
      var n := |more| - 1;
      var input := more[n].input;
      HistoryPrefix(more, n);
      assert forall i :: 0 <= i < n ==> more[..n][i] == more[i];
      u := LiveKeepsAges(c, more[..n], engine, t);
      var b := LiveRun(c, more[..n], engine).0;
      if more[n].io == Durable {
        StepIsAged(b, input, engine, u);
        StepSucceeds(b, input, engine);
        PlainKeepsStops(b, input, engine);
        if input.Submit? { u := input.order.createdAt; }
      }
      forall id | FreshIn(id, more) ensures FreshIn(id, more[..n]) {
      }
    }
  }

  /** In one process, whatever is readable was numbered without a gap. */
  lemma {:induction false} JournalIsCounted(events: seq<Event>)
    requires NoTriggers(events) && OneProcess(events)
    ensures forall r :: r in Journal(events) ==> r.number <= |Journal(events)|
    decreases |events|
  {
    if events != [] {
      var n := |events| - 1;
      assert forall i :: 0 <= i < n ==> events[..n][i] == events[i];
      JournalIsCounted(events[..n]);
      if Recorded(events[n].io) {
        AllRecorded(events[..n]);
      }
    }
  }

  lemma {:induction false} AllRecorded(events: seq<Event>)
    requires NoTriggers(events) && forall i :: 0 <= i < |events| ==> !events[i].io.WriteFailed?
    ensures |Journal(events)| == |events|
    decreases |events|
  {
    if events != [] { AllRecorded(events[..|events| - 1]); }
  }

  /** Replaying a journal from its k-th record on does again what was done live from there. */
  lemma {:induction false} ReplayFollowsFrom(b: Book, c: Book, number: nat, k: nat, more: seq<Event>, engine: Stp)
    requires NoTriggers(more) && HonestAppends(more, 0) && k <= |more|
    requires Equivalent(LiveRun(b, more[..k], engine).0, c)
    requires forall i :: 0 <= i < |more| ==> PlainInput(more[i].input)
    ensures var live, again := LiveRun(b, more, engine), Replay(c, JournalOn(number, more), number + k, engine);
      Equivalent(live.0, again.0) && live.1 == LiveRun(b, more[..k], engine).1 + again.1
    decreases |more|
  {
    hide Equivalent, Step, ReplayStep, Replay;
    if k == |more| {
      assert more[..k] == more;
      JournalNumbers(number, more);
      ReplaySkips(c, JournalOn(number, more), number + k, engine);
    } else {
      var n := |more| - 1;
      assert more[..n][..k] == more[..k];
      ReplayFollowsFrom(b, c, number, k, more[..n], engine);
      assert JournalOn(number, more[..n]) + [] == JournalOn(number, more[..n]);
      if more[n].io == Durable {
        var live, log := LiveRun(b, more[..n], engine).0, JournalOn(number, more[..n]);
        var r := RecordFor(more[n].input).Stamped(number + n + 1, more[n].now);
        ReplayAppend(c, log, r, number + k, engine);
        ReplayStepAlike(live, Replay(c, log, number + k, engine).0, more[n].input, number + n + 1, more[n].now, engine);
      }
    }
  }

  /** The snapshot a restarted engine takes after k appends of its own. */
  ghost predicate NextSnapshot(events: seq<Event>, s: Snapshot, more: seq<Event>, k: nat, next: Snapshot, engine: Stp)
    requires NoTriggers(events) && k <= |more|
  {
    IsSnapshotOf(next, LiveRun(Recovered(s, Journal(events), engine).0, more[..k], engine).0, |Journal(events)| + k)
  }

  /**
   * A restarted engine that takes a snapshot of its own and crashes: restoring that snapshot and replaying the file of
   * both processes gives an equivalent of the book it crashed with, and makes again the trades made since the snapshot.
   */
  lemma RecoversAgain(events: seq<Event>, k: nat, s: Snapshot, more: seq<Event>, j: nat, next: Snapshot, engine: Stp)
    requires FirstCrash(events, k, s, engine) && StampedInOrder(events, k, s) && FileAfter(events).tail == None
    requires Continues(events, more) && Arrives(more, LatestStamp(events, k, s))
    requires j <= |more| && NextSnapshot(events, s, more, j, next, engine)
    ensures var first := Recovered(s, Journal(events), engine).0;
      var live, again := LiveRun(first, more, engine), Recovered(next, Records(SecondFile(events, more).Read()), engine);
      Equivalent(live.0, again.0) && live.1 == LiveRun(first, more[..j], engine).1 + again.1
  {
    hide Equivalent, LiveRun, Replay, FirstCrash, HonestAppends, PlainHistory, RestoreBook, AgedBook, WellFormed, OneProcess;
    FirstIsOneProcess(events, k, s, engine);
    ContinuesPlainly(events, more);
    var first, number := Recovered(s, Journal(events), engine).0, |Journal(events)|;
    SnapshotIsRestored(events, k, s, more, j, next, engine);
    JournalIsRead(events);
    JournalIsReadOn(FileAfter(events), number, more);
    ReplayFollowsFrom(first, RestoreBook(next), number, j, more, engine);
    JournalIsCounted(events);
    ReplaySkips(RestoreBook(next), Journal(events), number + j, engine);
    ReplayConcat(RestoreBook(next), Journal(events), JournalOn(number, more), number + j, engine);
  }

  lemma ContinuesAlone(events: seq<Event>, more: seq<Event>, j: nat)
    requires PlainHistory(events + more) && j <= |more|
    ensures PlainHistory(more[..j])
    ensures forall i :: 0 <= i < j && more[i].input.Submit? ==> FreshIn(more[i].input.order.id, events)
  {
    var all := events + more;
    assert forall i :: 0 <= i < |more| ==> all[|events| + i] == more[i];
    forall i | 0 <= i < |more| && more[i].input.Submit?
      ensures FreshIn(more[i].input.order.id, events) && FreshIn(more[i].input.order.id, more[..i])
    {
      var before := all[..|events| + i];
      assert forall h :: 0 <= h < |events| ==> before[h] == events[h];
      assert forall h :: 0 <= h < i ==> before[|events| + h] == more[h];
      assert FreshIn(more[i].input.order.id, before);
    }
    assert forall i :: 0 <= i < j ==> more[..j][i] == more[i] && more[..j][..i] == more[..i];
  }

  lemma SnapshotIsRestored(events: seq<Event>, k: nat, s: Snapshot, more: seq<Event>, j: nat, next: Snapshot, engine: Stp)
    requires FirstCrash(events, k, s, engine) && StampedInOrder(events, k, s)
    requires PlainHistory(events + more) && Arrives(more, LatestStamp(events, k, s))
    requires j <= |more| && NextSnapshot(events, s, more, j, next, engine)
    ensures Equivalent(LiveRun(Recovered(s, Journal(events), engine).0, more[..j], engine).0, RestoreBook(next))
    ensures next.lastWal == |Journal(events)| + j
  {
    hide Equivalent, LiveRun, Replay, FirstCrash, PlainHistory, RestoreBook, Aged, WellFormed, StampedInOrder, AgesAgree;
    FirstIsOneProcess(events, k, s, engine);
    var t, first := LatestStamp(events, k, s), Recovered(s, Journal(events), engine).0;
    RecoveredIsAged(events, k, s, engine, t);
    ContinuesAlone(events, more, j);
    assert forall i :: 0 <= i < j ==> more[..j][i] == more[i];
    var u := LiveKeepsAges(first, more[..j], engine, t);
    var b := LiveRun(first, more[..j], engine).0;
    QueuesAgree(b, u);
    RestoreIsEquivalent(b, next, |Journal(events)| + j);
  }

  lemma QueuesAgree(b: Book, t: int)
    requires AgedTo(b, t)
    ensures AgesAgree(b.bids) && AgesAgree(b.asks)
  {
    AgedAgrees(Buy, b.bids, b.seqNo, t);
    AgedAgrees(Sell, b.asks, b.seqNo, t);
  }
}
