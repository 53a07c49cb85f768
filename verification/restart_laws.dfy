/**
 * The engine class and the recovery theorem together: a snapshot the engine took and the file it wrote are what a
 * restart needs, so that the restarted engine holds an equivalent of the book the crashed one had.
 */
module RestartLaws {
  import opened MatchingTypes
  import opened BookSpec
  import opened MatchingSpec
  import opened MatchingLaws
  import opened OrderBooks
  import opened MatchingEngines
  import opened WriteAheadLog
  import opened RecoverySpec
  import opened RestoreLaws
  import opened EquivalenceLaws
  import opened RecoveryLaws
  import opened ArrivalLaws
  import opened SecondCrashLaws
  import opened RestoredAges

  /** Every snapshot of a well-formed book can be restored. */
  lemma SnapshotIsRestorable(b: Book, s: Snapshot, wal: nat)
    requires WellFormed(b) && IsSnapshotOf(s, b, wal)
    ensures Restorable(s)
  {
    hide WellFormed, AbsentFrom, CopyAll, Parked, Resting;
    RenumberingFits(b, s.orders);
    forall o | o in s.orders ensures Resting(o) && o.bookSeq == 0 {
      ListedIsStorable(b, s.orders, o);
    }
    forall o | o in s.stops ensures Parked(o) && o.bookSeq == 0 && AbsentFrom(o.id, s.orders) {
      StopIsApart(b, s.orders, o);
    }
    StopsAreOneEach(b);
  }

  lemma ListedIsStorable(b: Book, s: seq<Order>, o: Order)
    requires WellFormed(b) && Lists(s, b) && o in s
    ensures Resting(o) && o.bookSeq == 0
  {
    ListingIsStorable(s, b);
    var i := PositionOf(s, o);
  }

  lemma StopIsApart(b: Book, s: seq<Order>, o: Order)
    requires WellFormed(b) && Lists(s, b) && o in CopyAll(b.stops)
    ensures Parked(o) && o.bookSeq == 0 && AbsentFrom(o.id, s)
  {
    var k := PositionOf(CopyAll(b.stops), o);
    var t := b.stops[k];
    assert t in b.stops && o == Copied(t);
    forall i | 0 <= i < |s| ensures s[i].id != t.id {
      var x := OriginalOf(b, s, i);
      assert Apart(x, t);
    }
  }

  lemma StopsAreOneEach(b: Book)
    ensures WellFormed(b) ==> OneEach(CopyAll(b.stops))
  {
    if WellFormed(b) {
      forall i, j | 0 <= i < j < |b.stops| ensures CopyAll(b.stops)[i].id != CopyAll(b.stops)[j].id {
        assert Apart(b.stops[i], b.stops[j]);
      }
    }
  }

  /** The ids in a journal are those of its history's orders. */
  lemma {:induction false} JournaledIds(number: nat, events: seq<Event>, id: Id)
    requires NoTriggers(events) && FreshIn(id, events)
    ensures forall r :: r in JournalOn(number, events) && r.OrderRecord? ==> r.id != id
    decreases |events|
  {
    if events != [] {
      var n := |events| - 1;
      assert forall i :: 0 <= i < n ==> events[..n][i] == events[i];
      JournaledIds(number, events[..n], id);
    }
  }

  lemma ReplayableGrows(log: seq<Record>, r: Record, lastWal: nat, seen: set<Id>)
    requires Replayable(log, lastWal, seen)
    requires r.OrderRecord? && r.number > lastWal ==>
      && r.id !in seen && r.id !in ReplayedIds(log, lastWal)
      && (r.kind == Limit || r.kind == StopLimit ==> r.price.At?)
    ensures Replayable(log + [r], lastWal, seen)
  {
    var all := log + [r];
    assert all[..|log|] == log;
    assert forall i :: 0 <= i < |log| ==> all[..i] == log[..i];
  }

  lemma ServableFrom(events: seq<Event>, more: seq<Event>, n: nat)
    requires Servable(events + more) && n <= |more|
    ensures Servable(events) && NoTriggers(more) && Servable(events + more[..n])
    ensures n < |more| && more[n].input.Submit? ==>
      Submittable(more[n].input.order) && FreshIn(more[n].input.order.id, events) && FreshIn(more[n].input.order.id, more[..n])
  {
    var all := events + more;
    assert forall i :: 0 <= i < |events| ==> all[i] == events[i] && all[..i] == events[..i];
    assert forall i :: 0 <= i < |more| ==> all[|events| + i] == more[i];
    assert all[..|events| + n] == events + more[..n];
    var part := events + more[..n];
    assert forall i :: 0 <= i < |part| ==> part[i] == all[i] && part[..i] == all[..i];
    if n < |more| && more[n].input.Submit? {
      assert FreshIn(more[n].input.order.id, part);
      assert forall i :: 0 <= i < |events| ==> part[i] == events[i];
      assert forall i :: 0 <= i < n ==> part[|events| + i] == more[..n][i];
    }
  }

  /** A journal can be replayed behind another, onto any state that knows no order numbered above the snapshot. */
  lemma {:induction false} JournalIsReplayableOn(log: seq<Record>, events: seq<Event>, number: nat, more: seq<Event>, k: nat, seen: set<Id>)
    requires Servable(events + more) && Replayable(log, k, seen)
    requires forall id, r :: FreshIn(id, events) && r in log && r.OrderRecord? ==> r.id != id
    requires forall i :: 0 <= i < |more| && number + i + 1 > k && more[i].input.Submit? ==> more[i].input.order.id !in seen
    requires NoTriggers(more)
    ensures Replayable(log + JournalOn(number, more), k, seen)
    decreases |more|
  {
    hide Replayable, Servable;
    if more == [] {
      assert log + [] == log;
    } else {
      var n := |more| - 1;
      ServableFrom(events, more, n);
      assert forall i :: 0 <= i < n ==> more[..n][i] == more[i];
      JournalIsReplayableOn(log, events, number, more[..n], k, seen);
      var so := JournalOn(number, more[..n]);
      if Recorded(more[n].io) {
        var r := RecordFor(more[n].input).Stamped(number + n + 1, more[n].now);
        if r.OrderRecord? {
          JournaledIds(number, more[..n], r.id);
        }
        ReplayableGrows(log + so, r, k, seen);
        assert log + so + [r] == log + (so + [r]);
      } else {
        assert so + [] == so;
      }
    }
  }

  /** A journal can be replayed onto any state that knows no order of the history's part above the snapshot. */
  lemma JournalIsReplayable(events: seq<Event>, k: nat, seen: set<Id>)
    requires Servable(events) && NoTriggers(events)
    requires forall i :: k <= i < |events| && events[i].input.Submit? ==> events[i].input.order.id !in seen
    ensures Replayable(Journal(events), k, seen)
  {
    assert [] + events == events && [] + Journal(events) == Journal(events);
    JournalIsReplayableOn([], [], 0, events, k, seen);
  }

  /** The ids a snapshot restores are none of those submitted after it. */
  lemma RestoredAreOlder(events: seq<Event>, k: nat, s: Snapshot, engine: Stp, i: nat)
    requires PlainHistory(events) && k <= i < |events| && events[i].input.Submit?
    requires IsSnapshotOf(s, LiveRun(EMPTY, events[..k], engine).0, k)
    ensures events[i].input.order.id !in IdsOf(s.orders) + IdsOf(s.stops)
  {
    var b, id := LiveRun(EMPTY, events[..k], engine).0, events[i].input.order.id;
    HistoryPrefix(events, k);
    LiveIsWellFormed(events[..k], engine);
    assert FreshIn(id, events[..k]) by {
      assert forall j :: 0 <= j < k ==> events[..k][j] == events[..i][j];
    }
    assert Absent(id, b);
    forall j | 0 <= j < |s.orders| ensures s.orders[j].id != id {
      var o := OriginalOf(b, s.orders, j);
    }
  }

  /** A restart finds what it needs: the snapshot can be restored, and the file replayed on top of it. */
  lemma RestartIsReady(events: seq<Event>, k: nat, s: Snapshot, engine: Stp)
    requires PlainHistory(events) && OneProcess(events) && k <= |events|
    requires IsSnapshotOf(s, LiveRun(EMPTY, events[..k], engine).0, k)
    ensures Restorable(s)
    ensures Records(FileAfter(events).Read()) == Journal(events)
    ensures Replayable(Records(FileAfter(events).Read()), s.lastWal, IdsOf(s.orders) + IdsOf(s.stops))
  {
    hide LiveRun;
    HistoryPrefix(events, k);
    LiveIsWellFormed(events[..k], engine);
    SnapshotIsRestorable(LiveRun(EMPTY, events[..k], engine).0, s, k);
    forall i | k <= i < |events| && events[i].input.Submit?
      ensures events[i].input.order.id !in IdsOf(s.orders) + IdsOf(s.stops)
    {
      RestoredAreOlder(events, k, s, engine, i);
    }
    JournalIsReplayable(events, k, IdsOf(s.orders) + IdsOf(s.stops));
    JournalIsRead(events);
  }

  /** So does the restart after a second crash, if the first one left a file that ends in a newline. */
  lemma SecondRestartIsReady(events: seq<Event>, k: nat, s: Snapshot, more: seq<Event>, engine: Stp)
    requires FirstCrash(events, k, s, engine) && Continues(events, more) && FileAfter(events).tail == None
    ensures Restorable(s)
    ensures Replayable(Records(SecondFile(events, more).Read()), s.lastWal, IdsOf(s.orders) + IdsOf(s.stops))
  {
    hide LiveRun, Restorable, Replayable, IdsOf;
    var number, seen, all := |Journal(events)|, IdsOf(s.orders) + IdsOf(s.stops), events + more;
    RestartIsReady(events, k, s, engine);
    JournalIsReadOn(FileAfter(events), number, more);
    assert all[..k] == events[..k];
    forall i | 0 <= i < |more| && more[i].input.Submit? ensures more[i].input.order.id !in seen {
      assert all[|events| + i] == more[i];
      RestoredAreOlder(all, k, s, engine, |events| + i);
    }
    forall id | FreshIn(id, events) ensures forall r :: r in Journal(events) && r.OrderRecord? ==> r.id != id {
      JournaledIds(0, events, id);
    }
    JournalIsReplayableOn(Journal(events), events, number, more, k, seen);
  }

  /**
   * Start-up after a crash: open the log, make an engine, restore the snapshot and replay the log. The engine then holds
   * an equivalent of the book the crashed one had, and has sent out again the trades made since the snapshot; and it can
   * be snapshot again, if the journal's clock ran on.
   */
  method RegisterPair(s: Snapshot, file: LogFile, stp: Stp, ghost events: seq<Event>, ghost k: nat)
    returns (e: MatchingEngine)
    requires PlainHistory(events) && ByArrival(events) && OneProcess(events) && k <= |events| && HonestAppends(events, k)
    requires IsSnapshotOf(s, LiveRun(EMPTY, events[..k], stp).0, k) && file == FileAfter(events)
    ensures fresh(e) && e.Valid() && e.stp == stp && e.wal.file == file && e.wal.seqNo == |Journal(events)|
    ensures Equivalent(LiveRun(EMPTY, events, stp).0, e.book.Abs())
    ensures LiveRun(EMPTY, events, stp).1 == LiveRun(EMPTY, events[..k], stp).1 + e.executed
    ensures StampedInOrder(events, k, s) ==> AgesAgree(e.book.Abs().bids) && AgesAgree(e.book.Abs().asks)
  {
    hide *;
    var wal := new WALWriter(file);
    e := new MatchingEngine(stp, wal);
    RestartIsReady(events, k, s, stp);
    RecoveryByArrival(events, k, s, [], stp);
    SnapshotNumber(s, LiveRun(EMPTY, events[..k], stp).0, k);
    RecoveredAges(events, k, s, stp);
    e.Recover(s, file);
  }

  lemma RecoveredAges(events: seq<Event>, k: nat, s: Snapshot, engine: Stp)
    requires PlainHistory(events) && ByArrival(events) && OneProcess(events) && k <= |events| && HonestAppends(events, k)
    requires IsSnapshotOf(s, LiveRun(EMPTY, events[..k], engine).0, k)
    ensures StampedInOrder(events, k, s) ==>
      var c := Replay(RestoreBook(s), Journal(events), s.lastWal, engine).0; AgesAgree(c.bids) && AgesAgree(c.asks)
  {
    hide LiveRun, AgesAgree, Replay, RestoreBook;
    HistoryPrefix(events, k);
    assert forall i :: 0 <= i < k ==> events[..k][i] == events[i];
    ArrivalAgrees(events[..k], engine);
    if StampedInOrder(events, k, s) { RecoveredKeepsAges(events, k, s, engine, 0); }
  }

  lemma SnapshotNumber(s: Snapshot, b: Book, k: nat)
    ensures IsSnapshotOf(s, b, k) ==> s.lastWal == k
  {
  }
}
