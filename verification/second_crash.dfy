/**
 * Crashing twice before the next snapshot. The restarted engine numbers on from the records it could read and writes on
 * behind whatever the first process left; the second recovery restores the same snapshot and replays the whole file.
 */
module SecondCrashLaws {
  import opened MatchingTypes
  import opened BookSpec
  import opened MatchingSpec
  import opened MatchingLaws
  import opened WriteAheadLog
  import opened RecoverySpec
  import opened RestoreLaws
  import opened EquivalenceLaws
  import opened RecoveryLaws

  /** A first crash from which recovery is invisible. */
  ghost predicate FirstCrash(events: seq<Event>, k: nat, s: Snapshot, engine: Stp) {
    && PlainHistory(events) && OneProcess(events) && k <= |events| && HonestAppends(events, k)
    && var b := LiveRun(EMPTY, events[..k], engine).0;
       IsSnapshotOf(s, b, k) && AgesAgree(b.bids) && AgesAgree(b.asks)
  }

  function Recovered(s: Snapshot, log: seq<Record>, engine: Stp): (Book, seq<Trade>) {
    Replay(RestoreBook(s), log, s.lastWal, engine)
  }

  /** What the second process may be given: plain orders under ids new to both, and cancels. */
  ghost predicate Continues(events: seq<Event>, more: seq<Event>) {
    PlainHistory(events + more) && NoTriggers(more) && OneProcess(more) && HonestAppends(more, 0)
  }

  /** The second recovery gives an equivalent of the book that the second process crashed with. */
  ghost predicate Invisible(events: seq<Event>, s: Snapshot, more: seq<Event>, engine: Stp)
    requires NoTriggers(events) && NoTriggers(more)
  {
    Equivalent(LiveRun(Recovered(s, Journal(events), engine).0, more, engine).0,
               Recovered(s, Records(SecondFile(events, more).Read()), engine).0)
  }

  // ----- what is replayed of the second part -----

  lemma {:induction false} ReplayConcat(b: Book, log: seq<Record>, more: seq<Record>, lastWal: nat, engine: Stp)
    ensures var first := Replay(b, log, lastWal, engine);
      var second := Replay(first.0, more, lastWal, engine);
      Replay(b, log + more, lastWal, engine) == (second.0, first.1 + second.1)
    decreases |more|
  {
    hide Replay, ReplayStep;
    if more == [] {
      assert log + more == log;
      ReplaySkips(Replay(b, log, lastWal, engine).0, [], lastWal, engine);
      assert Replay(b, log, lastWal, engine).1 + [] == Replay(b, log, lastWal, engine).1;
    } else {
      var n := |more| - 1;
      ReplayConcat(b, log, more[..n], lastWal, engine);
      assert log + more == (log + more[..n]) + [more[n]] && more == more[..n] + [more[n]];
      var first := Replay(b, log, lastWal, engine);
      var second := Replay(first.0, more[..n], lastWal, engine);
      ReplayAppend(b, log + more[..n], more[n], lastWal, engine);
      ReplayAppend(first.0, more[..n], more[n], lastWal, engine);
      assert first.1 + (second.1 + ReplayStep(second.0, more[n], engine).1)
          == first.1 + second.1 + ReplayStep(second.0, more[n], engine).1;
    }
  }

  /** Replaying what a process journaled, numbered above the snapshot, does again what it did. */
  lemma {:induction false} ReplayFollowsOn(b: Book, c: Book, number: nat, lastWal: nat, more: seq<Event>, engine: Stp)
    requires Equivalent(b, c) && NoTriggers(more) && HonestAppends(more, 0) && number >= lastWal
    requires forall i :: 0 <= i < |more| ==> PlainInput(more[i].input)
    ensures var live, again := LiveRun(b, more, engine), Replay(c, JournalOn(number, more), lastWal, engine);
      Equivalent(live.0, again.0) && live.1 == again.1
    decreases |more|
  {
    hide Equivalent, Step, ReplayStep, Replay;
    if more == [] {
      ReplaySkips(c, [], lastWal, engine);
    } else {
      var n := |more| - 1;
      ReplayFollowsOn(b, c, number, lastWal, more[..n], engine);
      assert JournalOn(number, more[..n]) + [] == JournalOn(number, more[..n]);
      if more[n].io == Durable {
        var live, log := LiveRun(b, more[..n], engine).0, JournalOn(number, more[..n]);
        var r := RecordFor(more[n].input).Stamped(number + n + 1, more[n].now);
        ReplayAppend(c, log, r, lastWal, engine);
        ReplayStepAlike(live, Replay(c, log, lastWal, engine).0, more[n].input, number + n + 1, more[n].now, engine);
      }
    }
  }

  lemma RecoveredIsEquivalent(events: seq<Event>, k: nat, s: Snapshot, engine: Stp)
    requires FirstCrash(events, k, s, engine)
    ensures s.lastWal == k
    ensures var first := Recovered(s, Journal(events), engine).0; Equivalent(first, first)
  {
    hide Equivalent, LiveRun, Replay, Run, Journal;
    CrashRecovery(events, k, s, [], engine);
    var live, first := LiveRun(EMPTY, events, engine).0, Recovered(s, Journal(events), engine).0;
    EquivalentBack(live, first);
    EquivalentThen(first, live, first);
  }

  lemma ContinuesPlainly(events: seq<Event>, more: seq<Event>)
    requires Continues(events, more)
    ensures forall i :: 0 <= i < |more| ==> PlainInput(more[i].input)
  {
    forall i | 0 <= i < |more| ensures PlainInput(more[i].input) {
      assert (events + more)[|events| + i] == more[i];
    }
  }

  /**
   * If the first process left no unterminated tail and as many readable records as the snapshot counts appends, the
   * second crash is as invisible as the first, and the second recovery makes again the trades of both processes.
   */
  lemma SecondCrash(events: seq<Event>, k: nat, s: Snapshot, more: seq<Event>, engine: Stp)
    requires FirstCrash(events, k, s, engine) && Continues(events, more)
    requires FileAfter(events).tail == None && |Journal(events)| >= k
    ensures Invisible(events, s, more, engine)
    ensures var first := Recovered(s, Journal(events), engine);
      Recovered(s, Records(SecondFile(events, more).Read()), engine).1 == first.1 + LiveRun(first.0, more, engine).1
  {
    hide Equivalent, LiveRun, Replay, FirstCrash, HonestAppends, PlainHistory;
    FirstIsOneProcess(events, k, s, engine);
    RecoveredIsEquivalent(events, k, s, engine);
    ContinuesPlainly(events, more);
    var first, number := Recovered(s, Journal(events), engine), |Journal(events)|;
    JournalIsRead(events);
    JournalIsReadOn(FileAfter(events), number, more);
    ReplayFollowsOn(first.0, first.0, number, k, more, engine);
    ReplayConcat(RestoreBook(s), Journal(events), JournalOn(number, more), k, engine);
  }

  lemma FirstIsOneProcess(events: seq<Event>, k: nat, s: Snapshot, engine: Stp)
    ensures FirstCrash(events, k, s, engine) ==> PlainHistory(events) && OneProcess(events) && NoTriggers(events)
  {
  }

  // ----- and otherwise an order is lost -----

  /** An order good till cancelled never leaves the book as it was: it rests, or takes something out. */
  lemma OrderShows(b: Book, o: Order, engine: Stp)
    requires Submittable(o) && o.kind == Limit && o.tif == GTC && o.quantity > 0
    ensures !Equivalent(Process(b, o, engine).book, b)
  {
    hide Walk, PlacedAlike, Bounded, Insert, Rank;
    var q, r := b.Queue(o.side.Opposite()), b.Queue(o.side);
    var w := Walk(o, q, engine);
    WalkShows(o, q, engine);
    WalkKeepsTif(o, q, engine);
    var book := Process(b, o, engine).book;
    if w.taker.remaining > 0 {
      var status := if w.taker.status == PartiallyFilled then PartiallyFilled else New;
      GrowsByInsert(r, Sequenced(Sweep(b, o, engine).book, w.taker.(status := status)));
      AlikeLength(book.Queue(o.side), r);
    } else {
      ShownInQueue(q, w.rest);
      assert book.Queue(o.side.Opposite()) == w.rest;
    }
  }

  lemma GrowsByInsert(q: seq<Order>, o: Order)
    ensures |Insert(q, o)| == |q| + 1
  {
  }

  /** A queue that lost an order, or part of its first one. */
  predicate Lost(q: seq<Order>, rest: seq<Order>) {
    |rest| < |q| || (|rest| == |q| && q != [] && rest[0].remaining < q[0].remaining)
  }

  lemma ShownInQueue(q: seq<Order>, rest: seq<Order>)
    requires Lost(q, rest)
    ensures !Alike(rest, q)
  {
    AlikeHeads(rest, q);
  }

  lemma AlikeHeads(q: seq<Order>, r: seq<Order>)
    ensures Alike(q, r) ==> |q| == |r| && (q != [] ==> q[0].remaining == r[0].remaining)
  {
    if Alike(q, r) && q != [] { assert Core(q[0]) == Core(r[0]); }
  }

  lemma {:induction false} WalkShows(t: Order, q: seq<Order>, engine: Stp)
    requires t.remaining > 0
    ensures var w := Walk(t, q, engine); w.taker.remaining <= 0 ==> Lost(q, w.rest)
    decreases |q|
  {
    if q != [] && Crosses(t, q[0].price.Units()) {
      if SelfTrade(t, q[0], engine) {
        if Mode(t, engine) == CancelMaker { WalkShows(t, q[1..], engine); }
      } else if FillQty(t, q[0]) < q[0].remaining {
        assert Walk(t, q, engine).rest[0] == MakerAfter(q[0], t.remaining);
      }
    }
  }

  lemma {:induction false} WalkKeepsTif(t: Order, q: seq<Order>, engine: Stp)
    ensures var w := Walk(t, q, engine); w.taker.tif == t.tif && w.taker.side == t.side
    decreases |q|
  {
    if q != [] && t.remaining > 0 && Crosses(t, q[0].price.Units()) {
      if SelfTrade(t, q[0], engine) {
        if Mode(t, engine) == CancelMaker { WalkKeepsTif(t, q[1..], engine); }
      } else if FillQty(t, q[0]) == q[0].remaining {
        WalkKeepsTif(TakerAfter(t, FillQty(t, q[0])), q[1..], engine);
      }
    }
  }

  /** The first process ended with an unterminated record: it was one the snapshot has, so replay skips it. */
  lemma {:induction false} TailIsOld(events: seq<Event>, k: nat, r: Record)
    requires NoTriggers(events) && OneProcess(events) && HonestAppends(events, k) && k <= |events|
    requires FileAfter(events).tail == Some(Good(r))
    ensures r.number <= k
    decreases |events|
  {
    var n := |events| - 1;
    assert forall i :: 0 <= i < n ==> events[..n][i] == events[i];
    if n >= k {
      if events[n].io == WriteFailed(Nothing) {
        TailIsOld(events[..n], k, r);
      }
    } else {
      TailNumber(events, r);
    }
  }

  lemma {:induction false} TailNumber(events: seq<Event>, r: Record)
    requires NoTriggers(events) && FileAfter(events).tail == Some(Good(r))
    ensures r.number <= |events|
    decreases |events|
  {
    if events != [] {
      var n := |events| - 1;
      if FileAfter(events[..n]).tail == Some(Good(r)) { TailNumber(events[..n], r); }
    }
  }

  lemma OneAppend(f: LogFile, number: nat, e: Event)
    requires !e.input.Trigger?
    ensures FileOn(f, number, [e]) == Appended(f, RecordFor(e.input).Stamped(number + 1, e.now), e.io)
  {
    assert [e][..0] == [];
    assert FileOn(f, number, [e][..0]) == f;
  }

  /** What the file of the second process holds after one durable append, as far as replay looks at it. */
  lemma DurableIsLost(events: seq<Event>, k: nat, s: Snapshot, e: Event, engine: Stp)
    requires FirstCrash(events, k, s, engine) && e.io == Durable && !e.input.Trigger?
    requires FileAfter(events).tail.Some? || |Journal(events)| < k
    ensures Recovered(s, Records(SecondFile(events, [e]).Read()), engine).0 == Recovered(s, Journal(events), engine).0
  {
    hide LiveRun, Replay, PlainHistory, FileAfter, Journal, ReplayStep;
    FirstIsOneProcess(events, k, s, engine);
    JournalIsRead(events);
    var f, number := FileAfter(events), |Journal(events)|;
    var r := RecordFor(e.input).Stamped(number + 1, e.now);
    OneAppend(f, number, e);
    if f.tail == None {
      AppendedRecords(f, r, Durable);
      ReplayAppend(RestoreBook(s), Journal(events), r, k, engine);
    } else {
      assert Appended(f, r, Durable).Read() == f.lines + [Corrupt] && f.Read() == f.lines + [f.tail.value];
      RecordsAppend(f.lines, Corrupt);
      RecordsAppend(f.lines, f.tail.value);
      if f.tail.value.Good? {
        TailIsOld(events, k, f.tail.value.rec);
        ReplayAppend(RestoreBook(s), Records(f.lines), f.tail.value.rec, k, engine);
      }
    }
  }

  /** A durably accepted order that the second recovery does not bring back. */
  lemma OrderIsLost(events: seq<Event>, k: nat, s: Snapshot, o: Order, now: int, engine: Stp)
    requires FirstCrash(events, k, s, engine)
    requires FileAfter(events).tail.Some? || |Journal(events)| < k
    requires Submittable(o) && o.kind == Limit && o.tif == GTC && o.quantity > 0
    ensures !Invisible(events, s, [Event(Submit(o), now, Durable)], engine)
  {
    hide Process, Replay, FileAfter, Journal, Records, SecondFile, FirstCrash;
    var e := Event(Submit(o), now, Durable);
    FirstIsOneProcess(events, k, s, engine);
    DurableIsLost(events, k, s, e, engine);
    var first := Recovered(s, Journal(events), engine).0;
    assert [e][..0] == [];
    assert LiveRun(first, [e], engine).0 == Process(first, o, engine).book;
    OrderShows(first, o, engine);
  }

  /** An id longer than all the others. */
  function Longest(events: seq<Event>): (id: Id)
    ensures id != "" && forall i :: 0 <= i < |events| && events[i].input.Submit? ==> |events[i].input.order.id| < |id|
  {
    if events == [] then "a"
    else
      var n := |events| - 1;
      var id := Longest(events[..n]);
      assert forall i :: 0 <= i < n ==> events[..n][i] == events[i];
      if events[n].input.Submit? then id + events[n].input.order.id else id
  }

  lemma OneMorePlain(events: seq<Event>, e: Event)
    requires PlainHistory(events) && e.input.Submit? && PlainInput(e.input) && FreshIn(e.input.order.id, events) && e.io == Durable
    ensures Continues(events, [e])
  {
    var all := events + [e];
    assert all[..|events|] == events;
    assert forall i :: 0 <= i < |events| ==> all[i] == events[i] && all[..i] == events[..i];
  }

  /**
   * Whatever the second process is given, its crash is invisible exactly when the first one left no unterminated tail
   * and as many readable records as the snapshot counts appends. In every other case a durably accepted order can be
   * lost: in the torn line, or below the number up to which replay skips.
   */
  lemma SecondCrashIsInvisibleIff(events: seq<Event>, k: nat, s: Snapshot, engine: Stp)
    requires FirstCrash(events, k, s, engine)
    ensures (forall more :: Continues(events, more) ==> Invisible(events, s, more, engine))
      <==> FileAfter(events).tail == None && |Journal(events)| >= k
  {
    hide Invisible, FileAfter, Journal, PlainHistory, OneProcess, HonestAppends, FirstCrash, NoTriggers;
    FirstIsOneProcess(events, k, s, engine);
    if FileAfter(events).tail == None && |Journal(events)| >= k {
      forall more | Continues(events, more) ensures Invisible(events, s, more, engine) {
        SecondCrash(events, k, s, more, engine);
      }
    } else {
      var o := Order(Longest(events), "user", Buy, Limit, At(1), NoPrice, 1, 0, 1, GTC, New, Disabled, 0, 0);
      var e := Event(Submit(o), 0, Durable);
      OneMorePlain(events, e);
      OrderIsLost(events, k, s, o, 0, engine);
      assert Continues(events, [e]);
    }
  }

  // ----- the two ways -----

  /** A limit bid for one unit. */
  function Bid(id: Id): Order {
    Order(id, "user", Buy, Limit, At(10), NoPrice, 1, 0, 1, GTC, New, Disabled, 0, 0)
  }

  function Refused(io: AppendResult): seq<Event> {
    [Event(Submit(Bid("refused")), 1, io)]
  }

  const ACCEPTED := [Event(Submit(Bid("accepted")), 2, Durable)]

  lemma RefusedIsFirst(io: AppendResult, k: nat, engine: Stp)
    requires io.WriteFailed? && !io.left.Unterminated? && k <= 1
    ensures FirstCrash(Refused(io), k, Snapshot([], [], 0, None, k), engine) && Continues(Refused(io), ACCEPTED)
    ensures FileAfter(Refused(io)) == Appended(NO_FILE, RecordOf(Bid("refused")).Stamped(1, 1), io)
    ensures Journal(Refused(io)) == []
  {
    hide Step;
    var events := Refused(io);
    assert events[..0] == [] && (k == 1 ==> events[..1] == events);
    assert LiveRun(EMPTY, events[..k], engine).0 == EMPTY;
    OneAppend(NO_FILE, 0, events[0]);
    RefusedIsPlain(io);
  }

  lemma RefusedIsPlain(io: AppendResult)
    ensures PlainHistory(Refused(io)) && Continues(Refused(io), ACCEPTED)
  {
    var events := Refused(io);
    assert PlainHistory(events) by { assert FreshIn("refused", events[..0]); }
    OneMorePlain(events, ACCEPTED[0]);
  }

  /** A write is torn by the crash; the record of the next accepted order ends up in the torn line. */
  lemma TornLineLosesAnOrder(engine: Stp)
    ensures var events, s := Refused(WriteFailed(Torn)), Snapshot([], [], 0, None, 0);
      && FirstCrash(events, 0, s, engine) && Continues(events, ACCEPTED)
      && Records(SecondFile(events, ACCEPTED).Read()) == [] && !Invisible(events, s, ACCEPTED, engine)
  {
    hide FirstCrash, Continues, Invisible;
    var events, s := Refused(WriteFailed(Torn)), Snapshot([], [], 0, None, 0);
    RefusedIsFirst(WriteFailed(Torn), 0, engine);
    OrderIsLost(events, 0, s, Bid("accepted"), 2, engine);
    var f := FileAfter(events);
    RecordsAppend([], Corrupt);
    assert f.Read() == [] + [Corrupt];
    OneAppend(f, 0, ACCEPTED[0]);
    assert SecondFile(events, ACCEPTED).Read() == [] + [Corrupt];
  }

  /** An append fails before the snapshot, which counts it; the next accepted order gets its number, and replay skips it. */
  lemma CountedFailureLosesAnOrder(engine: Stp)
    ensures var events, s := Refused(WriteFailed(Nothing)), Snapshot([], [], 0, None, 1);
      && FirstCrash(events, 1, s, engine) && Continues(events, ACCEPTED)
      && Records(SecondFile(events, ACCEPTED).Read()) == [RecordOf(Bid("accepted")).Stamped(1, 2)]
      && !Invisible(events, s, ACCEPTED, engine)
  {
    hide FirstCrash, Continues, Invisible;
    var events, s := Refused(WriteFailed(Nothing)), Snapshot([], [], 0, None, 1);
    var r := RecordOf(Bid("accepted")).Stamped(1, 2);
    RefusedIsFirst(WriteFailed(Nothing), 1, engine);
    OrderIsLost(events, 1, s, Bid("accepted"), 2, engine);
    assert FileAfter(events) == NO_FILE && NO_FILE.Read() == [];
    OneAppend(NO_FILE, 0, ACCEPTED[0]);
    RecordsAppend([], Good(r));
    assert SecondFile(events, ACCEPTED).Read() == [] + [Good(r)];
  }
}
