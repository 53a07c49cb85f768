/**
 * The inbound queue: any number of producers and one consumer over a ring of slots, as a transition system.
 * Each step is one atomic load, store, swap, compare-and-swap, channel send or receive.
 */
module RingBuffer {
  import opened Arithmetic
  import opened MatchingTypes

  type Pid = nat

  /** Where a producer stands inside Enqueue. */
  datatype Producer =
    | Idle
    | LoadHead(order: Order)
    | LoadTail(order: Order, head: nat)
    | Reserve(order: Order, head: nat, tail: nat)
    | Publish(order: Order, at: nat)
    | Signal(order: Order, at: nat)

  /** Where the engine loop stands: inside Drain, inside DrainStalled, or blocked on the notify channel. */
  datatype Consumer =
    | Top
    | DrainTail(head: nat)
    | Draining(head: nat, count: nat, taken: seq<Order>)
    | StallHead
    | StallTail(head: nat)
    | StallSlot(head: nat, tail: nat)
    | Blocked

  type Ring = s: seq<Option<Order>> | |s| > 0 witness [None]

  /** Positions grow for ever; the slot of a position is its remainder, which masking computes for a power of two. */
  function Read(slots: Ring, p: nat): Option<Order> {
    slots[p % |slots|]
  }

  function Store(slots: Ring, p: nat, o: Option<Order>): (stored: Ring)
    ensures |stored| == |slots|
  {
    slots[p % |slots| := o]
  }

  /** reserved and delivered record the order of successful reservations and the results of all drains. */
  datatype State = State(
    slots: Ring,
    head: nat,
    tail: nat,
    token: bool,
    producers: map<Pid, Producer>,
    consumer: Consumer,
    reserved: seq<Order>,
    delivered: seq<Order>)
  {
    function Cap(): (c: nat)
      ensures c > 0
    {
      |slots|
    }

    function Slot(p: nat): Option<Order> {
      Read(slots, p)
    }

    function WithSlot(p: nat, o: Option<Order>): State {
      this.(slots := Store(slots, p, o))
    }

    function At(pid: Pid, p: Producer): State {
      this.(producers := producers[pid := p])
    }

    /** The first position the consumer has not taken out of its slot. */
    function Front(): nat {
      head + (if consumer.Draining? then |consumer.taken| else 0)
    }

    /** The slot at head holds an order that can be drained. */
    predicate Ready() {
      head < tail && Slot(head).Some?
    }

    /** The consumer found nothing to drain and is on its way to block, or blocked. */
    predicate Quiet() {
      consumer.StallHead? || consumer.StallTail? || consumer.StallSlot? || consumer.Blocked?
    }
  }

  predicate Init(s: State) {
    && s.head == 0 == s.tail && !s.token && s.consumer == Top
    && (forall i :: 0 <= i < s.Cap() ==> s.slots[i] == None)
    && (forall p :: p in s.producers ==> s.producers[p] == Idle)
    && s.reserved == [] == s.delivered
  }

  // ----- steps of a producer -----

  /** The mask is the capacity less one; a tail behind the loaded head would wrap around and read as full. */
  predicate Full(s: State, head: nat, tail: nat) {
    tail < head || tail - head >= s.Cap() - 1
  }

  predicate ProducerStep(s: State, s': State, pid: Pid) {
    && pid in s.producers
    && match s.producers[pid]
       case Idle => s'.producers.Keys == s.producers.Keys && s'.producers[pid].LoadHead? && s' == s.At(pid, s'.producers[pid])
       case LoadHead(o) => s' == s.At(pid, LoadTail(o, s.head))
       case LoadTail(o, h) => s' == s.At(pid, if Full(s, h, s.tail) then Idle else Reserve(o, h, s.tail))
       case Reserve(o, h, t) =>
         if s.tail == t
         then s' == s.At(pid, Publish(o, t)).(tail := t + 1, reserved := s.reserved + [o])
         else s' == s.At(pid, LoadHead(o))
       case Publish(o, t) => s' == s.At(pid, Signal(o, t)).WithSlot(t, Some(o))
       case Signal(o, t) => s' == s.At(pid, Idle).(token := true)
  }

  // ----- steps of the consumer -----

  /** Drain returns what it took; with nothing taken the loop goes on to ask whether it is stalled. */
  function Return(s: State): State
    requires s.consumer.Draining?
  {
    var taken := s.consumer.taken;
    s.(head := s.head + |taken|, delivered := s.delivered + taken, consumer := if taken == [] then StallHead else Top)
  }

  predicate ConsumerStep(s: State, s': State) {
    match s.consumer
    case Top => s' == s.(consumer := DrainTail(s.head))
    case DrainTail(h) =>
      s' == s.(consumer := if s.tail <= h then StallHead else Draining(h, s.tail - h, []))
    case Draining(h, count, taken) =>
      if |taken| == count then s' == Return(s)
      else if s.Slot(h + |taken|).Some?
      then s' == s.WithSlot(h + |taken|, None).(consumer := Draining(h, count, taken + [s.Slot(h + |taken|).value]))
      else s' == s || s' == Return(s)      // spin once more, or stop before the unpublished slot
    case StallHead => s' == s.(consumer := StallTail(s.head))
    case StallTail(h) => s' == s.(consumer := StallSlot(h, s.tail))
    case StallSlot(h, t) => s' == s.(consumer := if t > h && s.Slot(h) == None then Top else Blocked)
    case Blocked =>
      || (s.token && s' == s.(token := false, consumer := Top))
      || s' == s.(consumer := Top)         // a cancel or the idle timeout
  }

  predicate Next(s: State, s': State) {
    ConsumerStep(s, s') || exists pid :: pid in s.producers && ProducerStep(s, s', pid)
  }

  // ----- the invariant -----

  /** Someone reserved position p and has not stored its order yet. */
  ghost predicate Pending(s: State, p: nat) {
    exists pid :: pid in s.producers && s.producers[pid].Publish? && s.producers[pid].at == p
  }

  ghost predicate Announcing(s: State, p: nat) {
    exists pid :: pid in s.producers && s.producers[pid].Signal? && s.producers[pid].at == p
  }

  ghost predicate CountersOk(s: State) {
    && s.head <= s.Front() <= s.tail <= s.head + s.Cap() - 1
    && |s.reserved| == s.tail
    && (s.consumer.Draining? ==> s.consumer.head == s.head && |s.consumer.taken| <= s.consumer.count
                                 && 0 < s.consumer.count && s.head + s.consumer.count <= s.tail)
    && (s.consumer.DrainTail? ==> s.consumer.head == s.head)
    && (s.consumer.StallTail? || s.consumer.StallSlot? ==> s.consumer.head == s.head)
  }

  ghost predicate ProducerOk(s: State, p: Producer)
    requires CountersOk(s)
  {
    match p
    case LoadTail(_, h) => h <= s.head
    case Reserve(_, h, t) => h <= s.head && t <= s.tail && t < h + s.Cap() - 1
    case Publish(o, t) => s.Front() <= t < s.tail && s.reserved[t] == o && s.Slot(t) == None
    case _ => true
  }

  /** Every reserved, untaken position holds its own order or is about to; every other slot is empty. */
  ghost predicate SlotsOk(s: State)
    requires CountersOk(s)
  {
    && (forall p :: s.Front() <= p < s.tail ==> s.Slot(p) == Some(s.reserved[p]) || (s.Slot(p) == None && Pending(s, p)))
    && (forall p :: s.tail <= p < s.Front() + s.Cap() ==> s.Slot(p) == None)
  }

  ghost predicate Inv(s: State) {
    && CountersOk(s)
    && (forall pid :: pid in s.producers ==> ProducerOk(s, s.producers[pid]))
    && (forall p, q :: p in s.producers && q in s.producers && p != q && s.producers[p].Publish? && s.producers[q].Publish?
          ==> s.producers[p].at != s.producers[q].at)
    && SlotsOk(s)
    && s.delivered + (if s.consumer.Draining? then s.consumer.taken else []) == s.reserved[..s.Front()]
    && (s.Quiet() && s.Ready() ==> s.token || Announcing(s, s.head))
  }

  /** Storing into one position leaves every other position of a window of Cap() positions alone. */
  lemma StoreIsLocal(s: State, p: nat, o: Option<Order>, q: nat)
    requires p < q + s.Cap() && q < p + s.Cap()
    ensures s.WithSlot(p, o).Slot(q) == if q == p then o else s.Slot(q)
  {
    if p < q {
      DifferentRemainders(p, q, s.Cap());
    } else if q < p {
      DifferentRemainders(q, p, s.Cap());
    }
  }

  // ----- every step keeps the invariant -----

  lemma InitEstablishes(s: State)
    ensures Init(s) ==> Inv(s)
  {
  }

  /** Another producer's phase is not disturbed, so what was pending stays pending. */
  lemma StillPending(s: State, pid: Pid, p: Producer, at: nat)
    requires pid in s.producers && Pending(s, at)
    requires !(s.producers[pid].Publish? && s.producers[pid].at == at)
    ensures Pending(s.At(pid, p), at)
  {
    var q :| q in s.producers && s.producers[q].Publish? && s.producers[q].at == at;
    assert q in s.At(pid, p).producers && s.At(pid, p).producers[q] == s.producers[q];
  }

  lemma StillAnnouncing(s: State, pid: Pid, p: Producer, at: nat)
    requires pid in s.producers && Announcing(s, at)
    requires !(s.producers[pid].Signal? && s.producers[pid].at == at)
    ensures Announcing(s.At(pid, p), at)
  {
    var q :| q in s.producers && s.producers[q].Signal? && s.producers[q].at == at;
    assert q in s.At(pid, p).producers && s.At(pid, p).producers[q] == s.producers[q];
  }

  /** Loading the counters, giving up, retrying or starting an Enqueue touches only the producer's own phase. */
  lemma MovingOnKeeps(s: State, pid: Pid, p: Producer)
    requires Inv(s) && pid in s.producers && !s.producers[pid].Publish? && !p.Publish?
    requires ProducerOk(s, p)
    requires s.producers[pid].Signal? ==> s.token
    ensures Inv(s.At(pid, p))
  {
    hide Read, Store;
    var s' := s.At(pid, p);
    forall at | s.Front() <= at < s.tail
      ensures s'.Slot(at) == Some(s.reserved[at]) || (s'.Slot(at) == None && Pending(s', at))
    {
      if s.Slot(at) == None {
        StillPending(s, pid, p, at);
      }
    }
    assert forall at :: s.tail <= at < s.Front() + s.Cap() ==> s'.Slot(at) == s.Slot(at) == None;
    if s.Quiet() && s.Ready() && !s.token {
      StillAnnouncing(s, pid, p, s.head);
    }
  }

  lemma TokenKeeps(s: State)
    requires Inv(s)
    ensures Inv(s.(token := true))
  {
    hide Read, Store;
    var marked := s.(token := true);
    forall at | s.Front() <= at < s.tail
      ensures marked.Slot(at) == Some(s.reserved[at]) || (marked.Slot(at) == None && Pending(marked, at))
    {
      if s.Slot(at) == None {
        var q :| q in s.producers && s.producers[q].Publish? && s.producers[q].at == at;
        assert q in marked.producers;
      }
    }
    assert forall at :: s.tail <= at < s.Front() + s.Cap() ==> marked.Slot(at) == s.Slot(at) == None;
  }

  function Reserved(s: State, pid: Pid, o: Order): State {
    s.At(pid, Publish(o, s.tail)).(tail := s.tail + 1, reserved := s.reserved + [o])
  }

  lemma ReservedSlotsOk(s: State, pid: Pid, o: Order)
    requires Inv(s) && pid in s.producers && s.producers[pid].Reserve? && s.tail + 1 <= s.head + s.Cap() - 1
    ensures SlotsOk(Reserved(s, pid, o))
  {
    hide Read, Store;
    var t, s' := s.tail, Reserved(s, pid, o);
    assert s.Slot(t) == None;
    assert s'.producers[pid] == Publish(o, t);
    forall at | s.Front() <= at < s'.tail
      ensures s'.Slot(at) == Some(s'.reserved[at]) || (s'.Slot(at) == None && Pending(s', at))
    {
      assert at < t || at == t;
      if at < t && s.Slot(at) == None {
        var q :| q in s.producers && s.producers[q].Publish? && s.producers[q].at == at;
        assert q in s'.producers && s'.producers[q] == s.producers[q];
      }
    }
    assert forall at :: s'.tail <= at < s.Front() + s.Cap() ==> s'.Slot(at) == s.Slot(at) == None;
  }

  lemma EmptyAtTail(s: State)
    requires Inv(s)
    ensures s.Slot(s.tail) == None
  {
    hide Read, Store;
  }

  lemma ReserveKeeps(s: State, s': State, pid: Pid)
    requires Inv(s) && pid in s.producers && s.producers[pid].Reserve? && ProducerStep(s, s', pid)
    ensures Inv(s')
  {
    hide Read, Store, SlotsOk;
    var Reserve(o, h, t) := s.producers[pid];
    if s.tail != t {
      MovingOnKeeps(s, pid, LoadHead(o));
    } else {
      ReservedSlotsOk(s, pid, o);
      EmptyAtTail(s);
      assert s'.reserved[..s.Front()] == s.reserved[..s.Front()];
      if s'.Quiet() && s'.Ready() && !s'.token {
        assert s.Ready();
        var q :| q in s.producers && s.producers[q].Signal? && s.producers[q].at == s.head;
        assert q in s'.producers && s'.producers[q] == s.producers[q];
      }
    }
  }

  lemma PublishKeeps(s: State, s': State, pid: Pid)
    requires Inv(s) && pid in s.producers && s.producers[pid].Publish? && ProducerStep(s, s', pid)
    ensures Inv(s')
  {
    hide Read, Store;
    var Publish(o, t) := s.producers[pid];
    forall at | s.Front() <= at < s.Front() + s.Cap()
      ensures s'.Slot(at) == if at == t then Some(o) else s.Slot(at)
    {
      StoreIsLocal(s, t, Some(o), at);
    }
    forall at | s.Front() <= at < s'.tail
      ensures s'.Slot(at) == Some(s'.reserved[at]) || (s'.Slot(at) == None && Pending(s', at))
    {
      if at != t && s.Slot(at) == None {
        var q :| q in s.producers && s.producers[q].Publish? && s.producers[q].at == at;
        assert q in s'.producers && s'.producers[q] == s.producers[q];
      }
    }
    if s'.Quiet() && s'.Ready() && !s'.token {
      assert pid in s'.producers && s'.producers[pid] == Signal(o, t);
      if t != s.head {
        assert s.Ready();
        var q :| q in s.producers && s.producers[q].Signal? && s.producers[q].at == s.head;
        assert q in s'.producers && s'.producers[q] == s.producers[q];
      }
    }
  }

  lemma ProducerKeeps(s: State, s': State, pid: Pid)
    requires Inv(s) && pid in s.producers && ProducerStep(s, s', pid)
    ensures Inv(s')
  {
    hide Read, Store;
    match s.producers[pid]
    case Idle => MovingOnKeeps(s, pid, s'.producers[pid]);
    case LoadHead(o) => MovingOnKeeps(s, pid, LoadTail(o, s.head));
    case LoadTail(o, h) => MovingOnKeeps(s, pid, if Full(s, h, s.tail) then Idle else Reserve(o, h, s.tail));
    case Reserve(_, _, _) => ReserveKeeps(s, s', pid);
    case Publish(_, _) => PublishKeeps(s, s', pid);
    case Signal(_, _) =>
      TokenKeeps(s);
      MovingOnKeeps(s.(token := true), pid, Idle);
  }

  /** A step that moves only the consumer, its token, or head up to what was already taken. */
  lemma ConsumerMovesKeeps(s: State, s': State)
    requires Inv(s) && s' == s.(consumer := s'.consumer, head := s'.head, token := s'.token, delivered := s'.delivered)
    requires CountersOk(s') && s'.Front() == s.Front() && s.head <= s'.head
    requires s'.delivered + (if s'.consumer.Draining? then s'.consumer.taken else []) == s.reserved[..s.Front()]
    requires s'.Quiet() ==> !s'.Ready() || (s.Quiet() && s'.token == s.token && s'.head == s.head)
    ensures Inv(s')
  {
    hide Read, Store;
    forall at | s'.Front() <= at < s'.tail
      ensures s'.Slot(at) == Some(s'.reserved[at]) || (s'.Slot(at) == None && Pending(s', at))
    {
      if s.Slot(at) == None {
        var q :| q in s.producers && s.producers[q].Publish? && s.producers[q].at == at;
        assert q in s'.producers;
      }
    }
    assert forall at :: s.tail <= at < s.Front() + s.Cap() ==> s'.Slot(at) == s.Slot(at) == None;
    forall pid | pid in s'.producers
      ensures ProducerOk(s', s'.producers[pid])
    {
      assert ProducerOk(s, s.producers[pid]);
    }
    if s'.Quiet() && s'.Ready() && !s'.token {
      var q :| q in s.producers && s.producers[q].Signal? && s.producers[q].at == s.head;
      assert q in s'.producers;
    }
  }

  /** Taking an order out of its slot: the position freed comes back as the last one of the window. */
  lemma TakeKeeps(s: State, s': State)
    requires Inv(s) && s.consumer.Draining? && |s.consumer.taken| < s.consumer.count && ConsumerStep(s, s')
    requires s.Slot(s.head + |s.consumer.taken|).Some?
    ensures Inv(s')
  {
    hide Read, Store;
    var front := s.Front();
    assert s.Slot(front) == Some(s.reserved[front]);
    forall at | front <= at < front + s.Cap()
      ensures s'.Slot(at) == if at == front then None else s.Slot(at)
    {
      StoreIsLocal(s, front, None, at);
    }
    assert s'.Slot(front + s.Cap()) == None by {
      WrapsAround(s, front);
      WrapsAround(s', front);
    }
    forall at | s'.Front() <= at < s'.tail
      ensures s'.Slot(at) == Some(s'.reserved[at]) || (s'.Slot(at) == None && Pending(s', at))
    {
      if s.Slot(at) == None {
        var q :| q in s.producers && s.producers[q].Publish? && s.producers[q].at == at;
        assert q in s'.producers;
      }
    }
    assert s.reserved[..front + 1] == s.reserved[..front] + [s.reserved[front]];
    assert s.delivered + s'.consumer.taken == s.delivered + s.consumer.taken + [s.reserved[front]];
  }

  lemma WrapsAround(s: State, p: nat)
    ensures s.Slot(p + s.Cap()) == s.Slot(p)
  {
    var cap := s.Cap();
    assert p + cap == (p / cap + 1) * cap + p % cap;
    DivMod(p / cap + 1, p % cap, cap);
  }

  lemma ConsumerKeeps(s: State, s': State)
    requires Inv(s) && ConsumerStep(s, s')
    ensures Inv(s')
  {
    hide Read, Store;
    match s.consumer
    case Draining(h, count, taken) =>
      if s' == Return(s) {
        assert s.delivered + taken == s'.delivered;
        ConsumerMovesKeeps(s, s');
      } else if s' != s {
        TakeKeeps(s, s');
      }
    case _ => ConsumerMovesKeeps(s, s');
  }

  lemma NextKeeps(s: State, s': State)
    requires Inv(s) && Next(s, s')
    ensures Inv(s')
  {
    if ConsumerStep(s, s') {
      ConsumerKeeps(s, s');
    } else {
      var pid :| pid in s.producers && ProducerStep(s, s', pid);
      ProducerKeeps(s, s', pid);
    }
  }

  // ----- every run -----

  /** Any interleaving of any number of producers and the one consumer. */
  ghost predicate IsRun(run: seq<State>) {
    && |run| > 0 && Init(run[0])
    && (forall i :: 0 <= i < |run| - 1 ==> Next(run[i], run[i + 1]))
  }

  lemma {:induction false} RunKeeps(run: seq<State>, i: nat)
    requires IsRun(run) && i < |run|
    ensures Inv(run[i])
  {
    if i == 0 {
      InitEstablishes(run[0]);
    } else {
      RunKeeps(run, i - 1);
      NextKeeps(run[i - 1], run[i]);
    }
  }

  /** Nothing is lost, duplicated or reordered: what the drains returned so far is a prefix of what was reserved. */
  lemma DeliveredIsPrefix(run: seq<State>, i: nat)
    requires IsRun(run) && i < |run|
    ensures run[i].delivered <= run[i].reserved
    ensures |run[i].delivered| == run[i].head && |run[i].reserved| == run[i].tail
  {
    hide Read, Store, ProducerStep, ConsumerStep;
    RunKeeps(run, i);
    var s := run[i];
    var taken := if s.consumer.Draining? then s.consumer.taken else [];
    assert s.delivered + taken <= s.reserved;
    assert s.delivered <= s.delivered + taken;
  }

  lemma StepOnlyAppends(s: State, s': State)
    requires Next(s, s')
    ensures s.reserved <= s'.reserved && s.delivered <= s'.delivered
  {
    hide Read, Store;
    if ConsumerStep(s, s') {
    } else {
      var pid :| pid in s.producers && ProducerStep(s, s', pid);
    }
  }

  /** The two histories only ever grow at their end, so a delivery is final. */
  lemma {:induction false} HistoriesOnlyGrow(run: seq<State>, i: nat, j: nat)
    requires IsRun(run) && i <= j < |run|
    ensures run[i].reserved <= run[j].reserved && run[i].delivered <= run[j].delivered
  {
    hide Read, Store, ProducerStep, ConsumerStep, Inv, Next;
    if i < j {
      HistoriesOnlyGrow(run, i, j - 1);
      RunKeeps(run, j - 1);
      assert Next(run[j - 1], run[j]);
      StepOnlyAppends(run[j - 1], run[j]);
    }
  }

  /** A producer only ever stores into an empty slot: no order still to be read is overwritten. */
  lemma NeverOverwrites(run: seq<State>, i: nat, pid: Pid)
    requires IsRun(run) && i < |run| && pid in run[i].producers && run[i].producers[pid].Publish?
    ensures run[i].Slot(run[i].producers[pid].at) == None
    ensures run[i].head <= run[i].producers[pid].at < run[i].head + run[i].Cap()
  {
    hide Read, Store, ProducerStep, ConsumerStep;
    RunKeeps(run, i);
    assert ProducerOk(run[i], run[i].producers[pid]);
  }

  /** A blocked consumer with something to drain will be woken: a token waits, or its producer is about to send one. */
  lemma NoLostWakeup(run: seq<State>, i: nat)
    requires IsRun(run) && i < |run| && run[i].consumer == Blocked && run[i].Ready()
    ensures run[i].token || Announcing(run[i], run[i].head)
  {
    hide Read, Store, ProducerStep, ConsumerStep;
    RunKeeps(run, i);
  }

  lemma HeadIsReadyOrPending(s: State)
    requires Inv(s) && !s.consumer.Draining? && s.head < s.tail
    ensures s.Ready() || Pending(s, s.head)
  {
    hide Read, Store;
    assert s.Slot(s.head) == Some(s.reserved[s.head]) || Pending(s, s.head);
  }

  /** With every Enqueue finished and no token left, a sleeping engine has received every order. */
  lemma AsleepMeansEmpty(run: seq<State>, i: nat)
    requires IsRun(run) && i < |run| && run[i].consumer == Blocked && !run[i].token
    requires forall pid :: pid in run[i].producers ==> run[i].producers[pid] == Idle
    ensures run[i].delivered == run[i].reserved
  {
    hide Read, Store, ProducerStep, ConsumerStep;
    RunKeeps(run, i);
    var s := run[i];
    if s.head < s.tail {
      HeadIsReadyOrPending(s);
      assert false;
    }
    assert s.reserved[..s.tail] == s.reserved;
  }
}
