/** Snapshot, restore and replay, as functions on books and journals. */
module RecoverySpec {
  import opened MatchingTypes
  import opened BookSpec
  import opened MatchingSpec
  import opened WriteAheadLog

  /** An order as the snapshot stores it: its place in the book is not serialised. */
  function Copied(o: Order): Order {
    o.(bookSeq := 0)
  }

  function CopyAll(q: seq<Order>): (r: seq<Order>)
    ensures |r| == |q|
    ensures forall i :: 0 <= i < |q| ==> r[i] == Copied(q[i])
  {
    if q == [] then [] else [Copied(q[0])] + CopyAll(q[1..])
  }

  datatype Snapshot = Snapshot(orders: seq<Order>, stops: seq<Order>, seqNo: nat, last: Option<int>, lastWal: nat)

  ghost predicate OneEach(s: seq<Order>) {
    forall i, j :: 0 <= i < j < |s| ==> s[i].id != s[j].id
  }

  /** A listing names every live order once, in any order, for it walks a map. */
  ghost predicate Lists(s: seq<Order>, b: Book) {
    OneEach(s) && forall o :: o in s <==> o in CopyAll(b.bids) || o in CopyAll(b.asks)
  }

  ghost predicate IsSnapshotOf(s: Snapshot, b: Book, wal: nat) {
    && Lists(s.orders, b)
    && s.stops == CopyAll(b.stops)
    && s.seqNo == b.seqNo
    && s.last == (if b.last > 0 then Some(b.last) else None)
    && s.lastWal == wal
  }

  /** Puts an order behind every order that is not younger. */
  function InsertByAge(sorted: seq<Order>, o: Order): seq<Order> {
    if sorted == [] then [o]
    else if sorted[|sorted| - 1].createdAt <= o.createdAt then sorted + [o]
    else InsertByAge(sorted[..|sorted| - 1], o) + [sorted[|sorted| - 1]]
  }

  /** A stable sort by time of creation. */
  function SortByAge(orders: seq<Order>): seq<Order> {
    if orders == [] then [] else InsertByAge(SortByAge(orders[..|orders| - 1]), orders[|orders| - 1])
  }

  /** Enters the orders one by one with fresh book sequences 1, 2, ... */
  function Refill(sorted: seq<Order>): Book {
    if sorted == [] then EMPTY
    else
      var n := |sorted| - 1;
      var b, o := Refill(sorted[..n]), sorted[n].(bookSeq := n + 1);
      b.WithQueue(o.side, Insert(b.Queue(o.side), o))
  }

  function RestoreBook(s: Snapshot): Book {
    Refill(SortByAge(s.orders)).(stops := s.stops, seqNo := s.seqNo, last := if s.last.Some? then s.last.value else 0)
  }

  // ----- journaled histories -----

  /** An input, the time of its journaling and how the append went. */
  datatype Event = Event(input: Input, now: int, io: AppendResult)

  ghost predicate FreshIn(id: Id, events: seq<Event>) {
    forall i :: 0 <= i < |events| && events[i].input.Submit? ==> events[i].input.order.id != id
  }

  /** Orders as NewOrder makes them, each id once, and cancels. */
  ghost predicate Servable(events: seq<Event>) {
    forall i :: 0 <= i < |events| ==>
      && !events[i].input.Trigger?
      && (events[i].input.Submit? ==> Submittable(events[i].input.order) && FreshIn(events[i].input.order.id, events[..i]))
  }

  function RecordFor(input: Input): Record
    requires !input.Trigger?
  {
    if input.Submit? then RecordOf(input.order) else CancelRecord(0, 0, input.id, input.user)
  }

  /** The live engine executes what it could journal and refuses the rest. */
  function LiveRun(b: Book, events: seq<Event>, engine: Stp): (Book, seq<Trade>)
    decreases |events|
  {
    if events == [] then (b, [])
    else
      var n := |events| - 1;
      var (before, trades) := LiveRun(b, events[..n], engine);
      if events[n].io != Durable then (before, trades)
      else
        var (after, more) := Step(before, events[n].input, engine);
        (after, trades + more)
  }

  ghost predicate NoTriggers(events: seq<Event>) {
    forall i :: 0 <= i < |events| ==> !events[i].input.Trigger?
  }

  /** The records a history leaves, numbered on from what its process read at its start; every append takes a number. */
  function JournalOn(number: nat, events: seq<Event>): seq<Record>
    requires NoTriggers(events)
  {
    if events == [] then []
    else
      var n := |events| - 1;
      JournalOn(number, events[..n]) +
        (if Recorded(events[n].io) then [RecordFor(events[n].input).Stamped(number + n + 1, events[n].now)] else [])
  }

  function Journal(events: seq<Event>): seq<Record>
    requires NoTriggers(events)
  {
    JournalOn(0, events)
  }

  /** The file after those appends to another. */
  function FileOn(f: LogFile, number: nat, events: seq<Event>): LogFile
    requires NoTriggers(events)
  {
    if events == [] then f
    else
      var n := |events| - 1;
      Appended(FileOn(f, number, events[..n]), RecordFor(events[n].input).Stamped(number + n + 1, events[n].now), events[n].io)
  }

  function FileAfter(events: seq<Event>): LogFile
    requires NoTriggers(events)
  {
    FileOn(NO_FILE, 0, events)
  }

  /** The file of two processes: the second counts the records it can read and writes on behind whatever is there. */
  function SecondFile(events: seq<Event>, more: seq<Event>): LogFile
    requires NoTriggers(events) && NoTriggers(more)
  {
    FileOn(FileAfter(events), |Records(FileAfter(events).Read())|, more)
  }

  /** What happens to appends in one process: after the first write that fails, nothing is written any more. */
  ghost predicate OneProcess(events: seq<Event>) {
    forall i, j :: 0 <= i < j < |events| && events[i].io.WriteFailed? ==> events[j].io == WriteFailed(Nothing)
  }

  /** Executes a record again; its trades are made and emitted again. */
  function ReplayStep(b: Book, r: Record, engine: Stp): (Book, seq<Trade>) {
    match r
    case OrderRecord(_, _, _, _, _, _, _, _, _, _, _) =>
      if OrderOf(r).Some? then var out := Process(b, OrderOf(r).value, engine); (out.book, out.trades) else (b, [])
    case CancelRecord(_, _, id, user) => (Cancel(b, id, user).0, [])
  }

  /** Replays the records numbered above the snapshot. */
  function Replay(b: Book, log: seq<Record>, lastWal: nat, engine: Stp): (Book, seq<Trade>) {
    if log == [] then (b, [])
    else
      var (before, trades) := Replay(b, log[..|log| - 1], lastWal, engine);
      var r := log[|log| - 1];
      if r.number <= lastWal then (before, trades)
      else
        var (after, more) := ReplayStep(before, r, engine);
        (after, trades + more)
  }
}
