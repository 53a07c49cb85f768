/** The write-ahead log: what is journaled, under which sequence numbers, and what replay reads back. */
module WriteAheadLog {
  import opened MatchingTypes

  /** One journal line. Fill state, status and book sequence are not journaled. */
  datatype Record =
    | OrderRecord(number: nat, timestamp: int, id: Id, user: User, side: Side, kind: OrderType, price: Price,
                  stopPrice: Price, quantity: int, tif: TimeInForce, stp: Stp)
    | CancelRecord(number: nat, timestamp: int, id: Id, user: User)
  {
    function Stamped(number: nat, timestamp: int): Record {
      this.(number := number, timestamp := timestamp)
    }
  }

  /** How much of a record a failed write left in the file: a part too short to parse, or all of it but its newline. */
  datatype Leftover = Nothing | Torn | Unterminated

  /** How one append went; one that was accepted stays in the file, synced by itself or with a later one. */
  datatype AppendResult =
    | Durable
    | SyncFailed                      // the record is in the file, but fsync reported an error
    | WriteFailed(left: Leftover)     // the write broke off, or the process died in it

  /** Reading the file back will find the record. */
  predicate Recorded(io: AppendResult) {
    !io.WriteFailed? || io.left.Unterminated?
  }

  function RecordOf(o: Order): Record {
    OrderRecord(0, 0, o.id, o.user, o.side, o.kind, o.price, o.stopPrice, o.quantity, o.tif, o.stp)
  }

  /** A record as an order again: fresh, created at the time of journaling; unusable quantities are skipped. */
  function OrderOf(r: Record): Option<Order>
    requires r.OrderRecord?
  {
    if r.quantity <= 0 then None
    else Some(Order(r.id, r.user, r.side, r.kind, r.price, r.stopPrice, r.quantity, 0, r.quantity,
                    r.tif, New, r.stp, r.timestamp, 0))
  }

  /** A line of the file: a parsable record, or bytes that do not parse. */
  datatype Line = Good(rec: Record) | Corrupt

  /** The terminated lines of a file, and what follows the last newline. */
  datatype LogFile = LogFile(lines: seq<Line>, tail: Option<Line>)
  {
    /** The file as a reader splits it up: an unterminated tail counts as a line. */
    function Read(): seq<Line> {
      lines + if tail.Some? then [tail.value] else []
    }
  }

  const NO_FILE := LogFile([], None)

  /** The records of a file, without the lines that do not parse. */
  function Records(file: seq<Line>): seq<Record> {
    if file == [] then []
    else
      var before := Records(file[..|file| - 1]);
      var last := file[|file| - 1];
      if last.Good? then before + [last.rec] else before
  }

  /** The file after an append. It only ever grows, so what is written joins an unterminated tail to one line. */
  function Appended(f: LogFile, r: Record, io: AppendResult): LogFile {
    if io == WriteFailed(Nothing) then f
    else if f.tail.Some? then
      if io.WriteFailed? then f.(tail := Some(Corrupt)) else LogFile(f.lines + [Corrupt], None)
    else if io.WriteFailed? then f.(tail := Some(if io.left.Torn? then Corrupt else Good(r)))
    else f.(lines := f.lines + [Good(r)])
  }

  /** What becomes of an append: the buffered writer keeps its first error, and writes nothing more. */
  function Effect(broken: bool, io: AppendResult): AppendResult {
    if broken then WriteFailed(Nothing) else io
  }

  class WALWriter {
    var seqNo: nat
    var file: LogFile
    var broken: bool

    /** Opening an existing file counts its parsable records and continues from there. */
    constructor (existing: LogFile)
      ensures file == existing && seqNo == |Records(existing.Read())| && !broken
    {
      var lines := existing.Read();
      var count := 0;
      for i := 0 to |lines|
        invariant count == |Records(lines[..i])|
      {
        assert lines[..i + 1][..i] == lines[..i];
        if lines[i].Good? {
          count := count + 1;
        }
      }
      assert lines[..|lines|] == lines;
      file, seqNo, broken := existing, count, false;
    }

    /** The number is consumed even when the append fails. */
    method Append(r: Record, now: int, io: AppendResult) returns (ok: bool)
      modifies this
      ensures ok <==> Effect(old(broken), io) == Durable
      ensures seqNo == old(seqNo) + 1 && broken == (old(broken) || io.WriteFailed?)
      ensures file == Appended(old(file), r.Stamped(seqNo, now), Effect(old(broken), io))
    {
      seqNo := seqNo + 1;
      if broken {
        return false;
      }
      file := Appended(file, r.Stamped(seqNo, now), io);
      broken := io.WriteFailed?;
      ok := io == Durable;
    }
  }

  // ----- what survives -----

  lemma RecordsAppend(file: seq<Line>, line: Line)
    ensures Records(file + [line]) == Records(file) + if line.Good? then [line.rec] else []
  {
    assert (file + [line])[..|file|] == file;
  }

  /** What an append adds to the records read back from a file without a tail. */
  lemma AppendedRecords(f: LogFile, r: Record, io: AppendResult)
    requires f.tail == None
    ensures Records(Appended(f, r, io).Read()) == Records(f.Read()) + if Recorded(io) then [r] else []
    ensures !io.WriteFailed? ==> Appended(f, r, io).tail == None
  {
    assert f.Read() == f.lines;
    RecordsAppend(f.lines, Good(r));
    RecordsAppend(f.lines, Corrupt);
    if io != WriteFailed(Nothing) {
      assert Appended(f, r, io).Read() == f.lines + [if io == WriteFailed(Torn) then Corrupt else Good(r)];
    }
  }

  /** A durable append is read back exactly when the file ended in a newline: a tail swallows the record after it. */
  lemma DurableIsReadIff(f: LogFile, r: Record)
    ensures Records(Appended(f, r, Durable).Read()) == Records(f.Read()) + [r] <==> f.tail == None
  {
    if f.tail == None {
      AppendedRecords(f, r, Durable);
    } else {
      assert Appended(f, r, Durable).Read() == f.lines + [Corrupt];
      RecordsAppend(f.lines, Corrupt);
      RecordsAppend(f.lines, f.tail.value);
    }
  }

  // ----- sequence numbers across restarts -----

  /** Journals grow with strictly increasing sequence numbers from 1. */
  ghost predicate Increasing(log: seq<Record>) {
    && (forall i :: 0 <= i < |log| ==> log[i].number > 0)
    && (forall i, j :: 0 <= i < j < |log| ==> log[i].number < log[j].number)
  }

  ghost predicate Gapless(log: seq<Record>) {
    forall i :: 0 <= i < |log| ==> log[i].number == i + 1
  }

  lemma {:induction false} NumberAtLeastPosition(log: seq<Record>, i: nat)
    requires Increasing(log) && i < |log|
    ensures log[i].number >= i + 1
  {
    if i > 0 {
      NumberAtLeastPosition(log, i - 1);
      assert log[i - 1].number < log[i].number;
    }
  }

  lemma {:induction false} GapsPersist(log: seq<Record>, i: nat, j: nat)
    requires Increasing(log) && i <= j < |log| && log[i].number > i + 1
    ensures log[j].number > j + 1
    decreases j - i
  {
    if i < j {
      assert log[i].number < log[i + 1].number;
      GapsPersist(log, i + 1, j);
    }
  }

  /** The number a reopened writer hands out next is above every recorded one exactly when the log has no gap. */
  lemma ReopenIsMonotonicIff(log: seq<Record>)
    requires Increasing(log)
    ensures (forall i :: 0 <= i < |log| ==> log[i].number < |log| + 1) <==> Gapless(log)
  {
    if forall i :: 0 <= i < |log| ==> log[i].number < |log| + 1 {
      forall i | 0 <= i < |log| ensures log[i].number == i + 1 {
        NumberAtLeastPosition(log, i);
        if log[i].number > i + 1 { GapsPersist(log, i, |log| - 1); }
      }
    }
  }

  /**
   * The appends of one process after another: each process numbers from what it reads at its start, and the last of
   * its writes may break off. A process is the list of its records and how their appends went.
   */
  function Written(f: LogFile, number: nat, broken: bool, appends: seq<(Record, AppendResult)>): LogFile
    decreases |appends|
  {
    if appends == [] then f
    else
      var (r, io) := appends[0];
      Written(Appended(f, r.Stamped(number + 1, r.timestamp), Effect(broken, io)),
              number + 1, broken || io.WriteFailed?, appends[1..])
  }

  /** After a write that broke off, a process writes nothing more, whatever it still appends. */
  lemma {:induction false} BrokenWritesNothing(f: LogFile, number: nat, appends: seq<(Record, AppendResult)>)
    ensures Written(f, number, true, appends) == f
    decreases |appends|
  {
    if appends != [] { BrokenWritesNothing(f, number + 1, appends[1..]); }
  }

  function Reopened(f: LogFile, appends: seq<(Record, AppendResult)>): LogFile {
    Written(f, |Records(f.Read())|, false, appends)
  }

  /**
   * How a gap comes about. The process dies while it writes its second record. The next one reads one record and
   * durably appends two more, but the first of them ends up in the torn line; so its successor reads two records,
   * numbered 1 and 3, and gives its first record the number 3 again.
   */
  lemma TornTailSwallowsARecord(r: Record)
    ensures var first := Reopened(NO_FILE, [(r, Durable), (r, WriteFailed(Torn))]);
      var second := Reopened(first, [(r, Durable), (r, Durable)]);
      var third := Reopened(second, [(r, Durable)]);
      && var one, three := r.Stamped(1, r.timestamp), r.Stamped(3, r.timestamp);
      && Records(first.Read()) == [one]
      && Records(second.Read()) == [one, three] && Increasing([one, three]) && !Gapless([one, three])
      && Records(third.Read()) == [one, three, three] && !Increasing([one, three, three])
  {
    hide Reopened, Records, Increasing, Gapless;
    FirstProcess(r);
    SecondProcess(r);
    ThirdProcess(r);
    GapShown(r.Stamped(1, r.timestamp), r.Stamped(3, r.timestamp));
  }

  lemma GapShown(one: Record, three: Record)
    requires one.number == 1 && three.number == 3
    ensures Increasing([one, three]) && !Gapless([one, three]) && !Increasing([one, three, three])
  {
    assert [one, three][1].number == 3;
    assert [one, three, three][1].number == [one, three, three][2].number;
  }

  lemma FirstProcess(r: Record)
    ensures var one := r.Stamped(1, r.timestamp);
      && Reopened(NO_FILE, [(r, Durable), (r, WriteFailed(Torn))]) == LogFile([Good(one)], Some(Corrupt))
      && Records(LogFile([Good(one)], Some(Corrupt)).Read()) == [one]
  {
    var one := r.Stamped(1, r.timestamp);
    WrittenTwo(NO_FILE, 0, r, Durable, WriteFailed(Torn));
    RecordsAppend([], Good(one));
    RecordsAppend([Good(one)], Corrupt);
    assert [] + [Good(one)] == [Good(one)];
  }

  lemma SecondProcess(r: Record)
    ensures var one, three := r.Stamped(1, r.timestamp), r.Stamped(3, r.timestamp);
      && Reopened(LogFile([Good(one)], Some(Corrupt)), [(r, Durable), (r, Durable)])
         == LogFile([Good(one), Corrupt, Good(three)], None)
      && Records(LogFile([Good(one), Corrupt, Good(three)], None).Read()) == [one, three]
  {
    hide Records;
    var one, three := r.Stamped(1, r.timestamp), r.Stamped(3, r.timestamp);
    FirstProcess(r);
    WrittenTwo(LogFile([Good(one)], Some(Corrupt)), 1, r, Durable, Durable);
    assert [Good(one)] + [Corrupt] + [Good(three)] == [Good(one), Corrupt, Good(three)];
    RecordsAppend([Good(one)] + [Corrupt], Good(three));
    assert LogFile([Good(one), Corrupt, Good(three)], None).Read() == [Good(one), Corrupt, Good(three)];
  }

  lemma ThirdProcess(r: Record)
    ensures var one, three := r.Stamped(1, r.timestamp), r.Stamped(3, r.timestamp);
      Records(Reopened(LogFile([Good(one), Corrupt, Good(three)], None), [(r, Durable)]).Read()) == [one, three, three]
  {
    hide Records;
    var one, three := r.Stamped(1, r.timestamp), r.Stamped(3, r.timestamp);
    var f := LogFile([Good(one), Corrupt, Good(three)], None);
    SecondProcess(r);
    WrittenOne(f, 2, r, Durable);
    AppendedRecords(f, three, Durable);
  }

  lemma WrittenOne(f: LogFile, number: nat, r: Record, io: AppendResult)
    ensures Written(f, number, false, [(r, io)]) == Appended(f, r.Stamped(number + 1, r.timestamp), io)
  {
    var appends := [(r, io)];
    assert appends[1..] == [];
  }

  lemma WrittenTwo(f: LogFile, number: nat, r: Record, io: AppendResult, io': AppendResult)
    requires !io.WriteFailed?
    ensures Written(f, number, false, [(r, io), (r, io')]) ==
      Appended(Appended(f, r.Stamped(number + 1, r.timestamp), io), r.Stamped(number + 2, r.timestamp), io')
  {
    var appends := [(r, io), (r, io')];
    assert appends[1..] == [(r, io')];
    WrittenOne(Appended(f, r.Stamped(number + 1, r.timestamp), io), number + 1, r, io');
  }
}
