/** Crash recovery is invisible: snapshot, restore and replay end in a book that behaves as if nothing had happened. */
module RecoveryLaws {
  import opened Arithmetic
  import opened MatchingTypes
  import opened BookSpec
  import opened MatchingSpec
  import opened MatchingLaws
  import opened WriteAheadLog
  import opened RecoverySpec
  import opened RestoreLaws
  import opened EquivalenceLaws

  predicate Plain(o: Order) {
    o.kind == Limit || o.kind == Market || o.kind == ImmediateOrCancel || o.kind == PostOnly
  }

  predicate PlainInput(input: Input) {
    input.Submit? ==> Plain(input.order) && Submittable(input.order)
  }

  // ----- the restored book -----

  lemma OriginalOf(b: Book, s: seq<Order>, i: nat) returns (o: Order)
    requires WellFormed(b) && Lists(s, b) && i < |s|
    ensures (o in b.bids || o in b.asks) && Copied(o) == s[i] && 1 <= o.bookSeq <= b.seqNo
  {
    assert s[i] in s;
    if s[i] in CopyAll(b.bids) {
      var k :| 0 <= k < |b.bids| && CopyAll(b.bids)[k] == s[i];
      o := b.bids[k];
      assert o in b.bids;
    } else {
      var k :| 0 <= k < |b.asks| && CopyAll(b.asks)[k] == s[i];
      o := b.asks[k];
      assert o in b.asks;
    }
  }

  lemma LiveApart(b: Book, o: Order, p: Order)
    requires WellFormed(b) && (o in b.bids || o in b.asks) && (p in b.bids || p in b.asks) && o.id != p.id
    ensures o.bookSeq != p.bookSeq
  {
    if o in b.bids && p in b.bids { PartsApart(b.bids, o, p); }
    if o in b.asks && p in b.asks { PartsApart(b.asks, o, p); }
  }

  /** Each live order used up one book sequence number, so renumbering from 1 stays below the restored counter. */
  lemma RenumberingFits(b: Book, s: seq<Order>)
    requires WellFormed(b) && Lists(s, b)
    ensures |s| <= b.seqNo
  {
    var t: seq<nat>, origins: seq<Order> := [], [];
    for i := 0 to |s|
      invariant |t| == |origins| == i
      invariant forall k :: 0 <= k < i ==>
        (origins[k] in b.bids || origins[k] in b.asks) && Copied(origins[k]) == s[k]
        && t[k] == origins[k].bookSeq - 1 && t[k] < b.seqNo
    {
      var o := OriginalOf(b, s, i);
      t, origins := t + [o.bookSeq - 1], origins + [o];
    }
    forall i, j | 0 <= i < j < |t| ensures t[i] != t[j] {
      assert s[i].id != s[j].id;
      LiveApart(b, origins[i], origins[j]);
    }
    DistinctAreFew(t, b.seqNo);
  }

  lemma CopiesAreAlike(q: seq<Order>, r: seq<Order>)
    requires CopyAll(q) == CopyAll(r)
    ensures Alike(q, r)
  {
    forall i | 0 <= i < |q| ensures Core(q[i]) == Core(r[i]) {
      assert CopyAll(q)[i] == CopyAll(r)[i];
    }
  }

  lemma RestoreIsEquivalent(b: Book, s: Snapshot, wal: nat)
    requires WellFormed(b) && b.stops == []
    requires IsSnapshotOf(s, b, wal) && AgesAgree(b.bids) && AgesAgree(b.asks)
    ensures Equivalent(b, RestoreBook(s))
  {
    RestoreKeepsQueues(b, s, wal);
    var c := RestoreBook(s);
    CopiesAreAlike(b.bids, c.bids);
    CopiesAreAlike(b.asks, c.asks);
    var sorted := SortByAge(s.orders);
    SortByAgeSorts(s.orders);
    SortByAgeLength(s.orders);
    ListingIsStorable(sorted, b);
    RefillIsRefilled(sorted);
    RenumberingFits(b, sorted);
  }

  // ----- the journaled history -----

  /** Plain orders under fresh ids, and cancels. */
  ghost predicate PlainHistory(events: seq<Event>) {
    Servable(events) && forall i :: 0 <= i < |events| ==> PlainInput(events[i].input)
  }

  lemma HistoryPrefix(events: seq<Event>, n: nat)
    requires PlainHistory(events) && n <= |events|
    ensures PlainHistory(events[..n])
  {
    assert forall i :: 0 <= i < n ==> events[..n][..i] == events[..i];
  }

  lemma PlainKeepsStops(b: Book, input: Input, engine: Stp)
    requires PlainInput(input) && !input.Trigger?
    ensures Step(b, input, engine).0.stops == b.stops
  {
    hide Walk;
  }

  lemma {:induction false} LiveIsWellFormed(events: seq<Event>, engine: Stp)
    requires PlainHistory(events)
    ensures var b := LiveRun(EMPTY, events, engine).0; WellFormed(b) && b.stops == [] && Equivalent(b, b)
    ensures forall id :: FreshIn(id, events) ==> Absent(id, LiveRun(EMPTY, events, engine).0)
    decreases |events|
  {
    hide Step, AgreeOn;
    if events != [] {
      var n := |events| - 1;
      HistoryPrefix(events, n);
      LiveIsWellFormed(events[..n], engine);
      var b := LiveRun(EMPTY, events[..n], engine).0;
      StepSucceeds(b, events[n].input, engine);
      StepAlike(b, b, events[n].input, engine);
      PlainKeepsStops(b, events[n].input, engine);
      forall id | FreshIn(id, events) ensures FreshIn(id, events[..n]) {
        assert forall i :: 0 <= i < n ==> events[..n][i] == events[i];
      }
    } else {
      EmptyIsEquivalent();
    }
  }

  lemma EmptyIsEquivalent()
    ensures Equivalent(EMPTY, EMPTY)
  {
  }

  lemma {:induction false} JournalNumbers(number: nat, events: seq<Event>)
    requires NoTriggers(events)
    ensures forall r :: r in JournalOn(number, events) ==> number < r.number <= number + |events|
    decreases |events|
  {
    if events != [] { JournalNumbers(number, events[..|events| - 1]); }
  }

  lemma {:induction false} ReplaySkips(c: Book, log: seq<Record>, lastWal: nat, engine: Stp)
    requires forall r :: r in log ==> r.number <= lastWal
    ensures Replay(c, log, lastWal, engine) == (c, [])
  {
    if log != [] { ReplaySkips(c, log[..|log| - 1], lastWal, engine); }
  }

  /** Journaling an order and reading it back loses nothing the engine looks at. */
  lemma JournaledOrder(o: Order, number: nat, now: int)
    requires Submittable(o)
    ensures var r := RecordOf(o).Stamped(number, now);
      OrderOf(r).Some? <==> o.quantity > 0
    ensures var r := RecordOf(o).Stamped(number, now);
      o.quantity > 0 ==> Core(OrderOf(r).value) == Core(o) && OrderOf(r).value.bookSeq == 0
  {
  }

  lemma ReplayStepAlike(b: Book, c: Book, input: Input, number: nat, now: int, engine: Stp)
    requires Equivalent(b, c) && PlainInput(input) && !input.Trigger?
    ensures var live, again := Step(b, input, engine), ReplayStep(c, RecordFor(input).Stamped(number, now), engine);
      Equivalent(live.0, again.0) && live.1 == again.1
  {
    hide Equivalent, Dispatch, Cancel;
    if input.Submit? {
      JournaledOrder(input.order, number, now);
      if input.order.quantity > 0 {
        ProcessAlike(b, c, input.order, OrderOf(RecordFor(input).Stamped(number, now)).value, engine);
      }
    } else {
      CancelAlike(b, c, input.id, input.user);
    }
  }

  /** No append after the snapshot left a readable record behind that it reported as failed. */
  ghost predicate HonestAppends(events: seq<Event>, k: nat) {
    forall i :: k <= i < |events| ==> (Recorded(events[i].io) <==> events[i].io == Durable)
  }

  /** The live engine and a replay onto c have come to equivalent books, by the same trades since the k-th append. */
  ghost predicate InStep(events: seq<Event>, k: nat, c: Book, engine: Stp)
    requires PlainHistory(events) && k <= |events|
  {
    var live, again := LiveRun(EMPTY, events, engine), Replay(c, Journal(events), k, engine);
    Equivalent(live.0, again.0) && live.1 == LiveRun(EMPTY, events[..k], engine).1 + again.1
  }

  lemma {:induction false} ReplayFollows(events: seq<Event>, k: nat, c: Book, engine: Stp)
    requires PlainHistory(events) && k <= |events| && HonestAppends(events, k)
    requires Equivalent(LiveRun(EMPTY, events[..k], engine).0, c)
    ensures InStep(events, k, c, engine)
    decreases |events|
  {
    hide Equivalent, LiveRun, Replay;
    if k == |events| {
      assert events[..k] == events;
      JournalNumbers(0, events);
      ReplaySkips(c, Journal(events), k, engine);
    } else {
      var n := |events| - 1;
      HistoryPrefix(events, n);
      assert events[..n][..k] == events[..k];
      ReplayFollows(events[..n], k, c, engine);
      ReplayOneMore(events, k, c, engine);
    }
  }

  lemma ReplayAppend(c: Book, log: seq<Record>, r: Record, lastWal: nat, engine: Stp)
    ensures var before := Replay(c, log, lastWal, engine);
      Replay(c, log + [r], lastWal, engine) ==
        if r.number <= lastWal then before
        else (ReplayStep(before.0, r, engine).0, before.1 + ReplayStep(before.0, r, engine).1)
  {
    assert (log + [r])[..|log|] == log;
  }

  /** One more event: what it does live, and what it leaves in the journal. */
  lemma OneMoreEvent(events: seq<Event>, engine: Stp)
    requires events != [] && PlainHistory(events) && PlainHistory(events[..|events| - 1])
    ensures var n, last := |events| - 1, events[|events| - 1];
      var before := LiveRun(EMPTY, events[..n], engine);
      && LiveRun(EMPTY, events, engine)
         == (if last.io == Durable
             then (Step(before.0, last.input, engine).0, before.1 + Step(before.0, last.input, engine).1) else before)
      && Journal(events)
         == (if Recorded(last.io) then Journal(events[..n]) + [RecordFor(last.input).Stamped(n + 1, last.now)]
             else Journal(events[..n]))
  {
    assert Journal(events[..|events| - 1]) + [] == Journal(events[..|events| - 1]);
  }

  lemma ReplayOneMore(events: seq<Event>, k: nat, c: Book, engine: Stp)
    requires PlainHistory(events) && k < |events| && HonestAppends(events, k)
    requires PlainHistory(events[..|events| - 1]) && InStep(events[..|events| - 1], k, c, engine)
    ensures InStep(events, k, c, engine)
  {
    hide Equivalent, LiveRun, Replay, ReplayStep, Step;
    var n := |events| - 1;
    OneMoreEvent(events, engine);
    assert events[..n][..k] == events[..k];
    if events[n].io == Durable {
      var b, log := LiveRun(EMPTY, events[..n], engine).0, Journal(events[..n]);
      ReplayAppend(c, log, RecordFor(events[n].input).Stamped(n + 1, events[n].now), k, engine);
      ReplayStepAlike(b, Replay(c, log, k, engine).0, events[n].input, n + 1, events[n].now, engine);
    }
  }

  /**
   * Crash recovery is invisible. Take a history of plain orders and cancels, a snapshot after its first k appends and a
   * crash at its end. If ages agreed with priorities at the snapshot, restoring it and replaying the journal gives an
   * equivalent book and makes again just the trades made since the snapshot, and all later inputs, stop orders among
   * them, make the same trades.
   */
  lemma CrashRecovery(events: seq<Event>, k: nat, s: Snapshot, later: seq<Input>, engine: Stp)
    requires PlainHistory(events) && k <= |events| && HonestAppends(events, k)
    requires var b := LiveRun(EMPTY, events[..k], engine).0;
      IsSnapshotOf(s, b, k) && AgesAgree(b.bids) && AgesAgree(b.asks)
    requires forall i :: 0 <= i < |later| ==> Usual(later[i])
    ensures var live, recovered := LiveRun(EMPTY, events, engine), Replay(RestoreBook(s), Journal(events), s.lastWal, engine);
      && Equivalent(live.0, recovered.0)
      && live.1 == LiveRun(EMPTY, events[..k], engine).1 + recovered.1
      && Run(live.0, later, engine).1 == Run(recovered.0, later, engine).1
  {
    hide Equivalent, LiveRun, Replay, Run;
    HistoryPrefix(events, k);
    LiveIsWellFormed(events[..k], engine);
    RestoreIsEquivalent(LiveRun(EMPTY, events[..k], engine).0, s, k);
    ReplayFollows(events, k, RestoreBook(s), engine);
    RunAlike(LiveRun(EMPTY, events, engine).0, Replay(RestoreBook(s), Journal(events), k, engine).0, later, engine);
  }

  lemma {:induction false} LiveRunAlike(b: Book, c: Book, events: seq<Event>, engine: Stp)
    requires Equivalent(b, c) && forall i :: 0 <= i < |events| ==> Usual(events[i].input)
    ensures var x, y := LiveRun(b, events, engine), LiveRun(c, events, engine);
      Equivalent(x.0, y.0) && x.1 == y.1
    decreases |events|
  {
    hide Equivalent, Step;
    if events != [] {
      var n := |events| - 1;
      LiveRunAlike(b, c, events[..n], engine);
      StepAlike(LiveRun(b, events[..n], engine).0, LiveRun(c, events[..n], engine).0, events[n].input, engine);
    }
  }

  lemma {:induction false} LiveRunConcat(b: Book, events: seq<Event>, more: seq<Event>, engine: Stp)
    ensures var x := LiveRun(b, events, engine);
      var y := LiveRun(x.0, more, engine);
      LiveRun(b, events + more, engine) == (y.0, x.1 + y.1)
    decreases |more|
  {
    hide Step;
    if more == [] {
      assert events + more == events;
      assert LiveRun(b, events, engine).1 + [] == LiveRun(b, events, engine).1;
    } else {
      var n := |more| - 1;
      LiveRunConcat(b, events, more[..n], engine);
      assert (events + more)[..|events| + n] == events + more[..n];
      var x := LiveRun(b, events, engine);
      var y := LiveRun(x.0, more[..n], engine);
      var last := Step(y.0, more[n].input, engine).1;
      assert x.1 + (y.1 + last) == x.1 + y.1 + last;
    }
  }

  // ----- the file -----

  /** The journal of one process is what a reader finds behind what was there, if that ended in a newline. */
  lemma {:induction false} JournalIsReadOn(f: LogFile, number: nat, events: seq<Event>)
    requires NoTriggers(events) && OneProcess(events) && f.tail == None
    ensures Records(FileOn(f, number, events).Read()) == Records(f.Read()) + JournalOn(number, events)
    ensures (forall i :: 0 <= i < |events| ==> !events[i].io.WriteFailed?) ==> FileOn(f, number, events).tail == None
    decreases |events|
  {
    hide Records, Appended;
    if events == [] {
      assert Records(f.Read()) + [] == Records(f.Read());
    } else {
      var n := |events| - 1;
      assert forall i :: 0 <= i < n ==> events[..n][i] == events[i];
      JournalIsReadOn(f, number, events[..n]);
      var before, r := FileOn(f, number, events[..n]), RecordFor(events[n].input).Stamped(number + n + 1, events[n].now);
      assert before.tail == None || events[n].io == WriteFailed(Nothing);
      if before.tail == None {
        AppendedRecords(before, r, events[n].io);
      } else {
        NothingAppended(before, r);
      }
      JournalSplits(Records(f.Read()), JournalOn(number, events[..n]), if Recorded(events[n].io) then [r] else []);
    }
  }

  lemma NothingAppended(f: LogFile, r: Record)
    ensures Appended(f, r, WriteFailed(Nothing)) == f
  {
  }

  lemma JournalSplits(a: seq<Record>, b: seq<Record>, c: seq<Record>)
    ensures a + (b + c) == a + b + c && a + b + [] == a + b
  {
  }

  /** The journal of one process is what a reader finds in its file, whatever a failed write left behind. */
  lemma JournalIsRead(events: seq<Event>)
    requires NoTriggers(events) && OneProcess(events)
    ensures Records(FileAfter(events).Read()) == Journal(events)
    ensures (forall i :: 0 <= i < |events| ==> !events[i].io.WriteFailed?) ==> FileAfter(events).tail == None
  {
    JournalIsReadOn(NO_FILE, 0, events);
    assert NO_FILE.Read() == [] && [] + Journal(events) == Journal(events);
  }

  /**
   * An append that was reported as failed but left its record: the input was refused live and is executed by the replay,
   * so the books come to differ exactly when executing it makes a difference.
   */
  lemma RefusedInputShowsIff(events: seq<Event>, k: nat, c: Book, engine: Stp)
    requires PlainHistory(events) && k < |events| && HonestAppends(events[..|events| - 1], k)
    requires events[|events| - 1].io != Durable && Recorded(events[|events| - 1].io)
    requires Equivalent(LiveRun(EMPTY, events[..k], engine).0, c)
    ensures var live := LiveRun(EMPTY, events, engine).0;
      Equivalent(live, Replay(c, Journal(events), k, engine).0)
      <==> Equivalent(live, Step(live, events[|events| - 1].input, engine).0)
  {
    hide Equivalent, LiveRun, Replay, ReplayStep, Step;
    var n := |events| - 1;
    HistoryPrefix(events, n);
    assert events[..n][..k] == events[..k];
    ReplayFollows(events[..n], k, c, engine);
    OneMoreEvent(events, engine);
    var live, log := LiveRun(EMPTY, events[..n], engine).0, Journal(events[..n]);
    ReplayAppend(c, log, RecordFor(events[n].input).Stamped(n + 1, events[n].now), k, engine);
    ReplayStepAlike(live, Replay(c, log, k, engine).0, events[n].input, n + 1, events[n].now, engine);
    var executed, again := Step(live, events[n].input, engine).0, Replay(c, Journal(events), k, engine).0;
    if Equivalent(live, executed) { EquivalentThen(live, executed, again); }
    if Equivalent(live, again) {
      EquivalentBack(executed, again);
      EquivalentThen(live, again, executed);
    }
  }

  /**
   * HonestAppends is needed: an order whose fsync failed was refused to its submitter, yet its record is in the
   * file, so recovery brings it to life.
   */
  lemma FailedSyncResurrects(o: Order, now: int, engine: Stp)
    requires Submittable(o) && o.kind == Limit && o.tif == GTC && o.quantity > 0
    ensures var events := [Event(Submit(o), now, SyncFailed)];
      && PlainHistory(events)
      && LiveRun(EMPTY, events, engine).0 == EMPTY
      && var r := Replay(EMPTY, Journal(events), 0, engine).0; |r.bids| + |r.asks| == 1
  {
    hide LiveRun, Process, ReplayStep, Replay, JournalOn, PlainHistory;
    var e := Event(Submit(o), now, SyncFailed);
    var r := RecordFor(Submit(o)).Stamped(1, now);
    OneRefused(e, engine);
    ReplaySkips(EMPTY, [], 0, engine);
    assert [] + [r] == [r];
    ReplayAppend(EMPTY, [], r, 0, engine);
    JournaledRests(o, now, engine);
  }

  lemma OneRefused(e: Event, engine: Stp)
    requires e.io == SyncFailed && e.input.Submit? && PlainInput(e.input)
    ensures PlainHistory([e]) && LiveRun(EMPTY, [e], engine).0 == EMPTY
    ensures Journal([e]) == [RecordFor(e.input).Stamped(1, e.now)]
  {
    assert [e][..0] == [];
    assert JournalOn(0, [e]) == JournalOn(0, [e][..0]) + [RecordFor(e.input).Stamped(1, e.now)];
  }

  /** What is read back of a limit order rests in an empty book. */
  lemma JournaledRests(o: Order, now: int, engine: Stp)
    requires Submittable(o) && o.kind == Limit && o.tif == GTC && o.quantity > 0
    ensures var b := ReplayStep(EMPTY, RecordFor(Submit(o)).Stamped(1, now), engine).0; |b.bids| + |b.asks| == 1
  {
    var p := OrderOf(RecordFor(Submit(o)).Stamped(1, now)).value;
    assert Sweep(EMPTY, p, engine) == Outcome(EMPTY, p, []);
  }
}
