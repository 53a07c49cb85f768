/**
 * What the inbound queue accepts, hands over and waits for: it refuses an order only when it looked full, an enqueue
 * that meets no other one succeeds while there is room, a drain takes all that is published, and the engine goes to
 * sleep only when there is nothing it has to wait for.
 */
module RingProgress {
  import opened Arithmetic
  import opened MatchingTypes
  import opened RingBuffer

  /** How many reserved orders the consumer has not returned from a drain yet. */
  function Backlog(s: State): int {
    |s.reserved| - |s.delivered|
  }

  // ----- what is refused -----

  /** What one step does to a producer that is loading the tail afterwards. */
  lemma LoadingStep(s: State, s': State, pid: Pid)
    requires Next(s, s') && pid in s'.producers && s'.producers[pid].LoadTail?
    ensures pid in s.producers
    ensures s.producers[pid] == s'.producers[pid]
      || (s.producers[pid].LoadHead? && s'.producers[pid] == LoadTail(s.producers[pid].order, s.head))
  {
    hide Read, Store;
    if !ConsumerStep(s, s') {
      var q :| q in s.producers && ProducerStep(s, s', q);
    }
  }

  /** From the load of its head to that of its tail, a producer stands still. */
  ghost predicate LoadedAt(run: seq<State>, j: nat, i: nat, pid: Pid) {
    && j < i < |run| && pid in run[j].producers && run[j].producers[pid].LoadHead?
    && forall n :: j < n <= i ==>
         pid in run[n].producers && run[n].producers[pid] == LoadTail(run[j].producers[pid].order, run[j].head)
  }

  lemma {:induction false} HeadWasLoaded(run: seq<State>, i: nat, pid: Pid) returns (j: nat)
    requires IsRun(run) && i < |run| && pid in run[i].producers && run[i].producers[pid].LoadTail?
    ensures LoadedAt(run, j, i, pid)
  {
    hide Next;
    if i > 0 {
      assert Next(run[i - 1], run[i]);
      LoadingStep(run[i - 1], run[i], pid);
      if run[i - 1].producers[pid] == run[i].producers[pid] {
        j := HeadWasLoaded(run, i - 1, pid);
      } else {
        j := i - 1;
      }
    }
  }

  lemma LeavesLoading(s: State, s': State, pid: Pid)
    requires Next(s, s') && pid in s.producers && s.producers[pid].LoadTail?
    requires pid in s'.producers && s'.producers[pid] != s.producers[pid]
    ensures s'.producers[pid].Idle? || s'.producers[pid].Reserve?
    ensures s'.producers[pid].Idle? <==> s.tail < s.producers[pid].head || s.tail - s.producers[pid].head >= s.Cap() - 1
  {
    hide Read, Store;
    if !ConsumerStep(s, s') {
      var q :| q in s.producers && ProducerStep(s, s', q);
    }
  }

  /**
   * A producer gives up exactly when what was reserved as it looked at the tail, less what had been drained as it looked
   * at the head, would leave at most one slot free.
   */
  lemma GivesUpIff(run: seq<State>, i: nat, pid: Pid) returns (j: nat)
    requires IsRun(run) && i + 1 < |run| && pid in run[i].producers && run[i].producers[pid].LoadTail?
    requires pid in run[i + 1].producers && run[i + 1].producers[pid] != run[i].producers[pid]
    ensures LoadedAt(run, j, i, pid)
    ensures run[i + 1].producers[pid] == Idle <==> |run[i].reserved| - |run[j].delivered| >= run[i].Cap() - 1
  {
    hide Read, Store, ProducerStep, ConsumerStep, Next;
    j := HeadWasLoaded(run, i, pid);
    assert Next(run[i], run[i + 1]);
    LeavesLoading(run[i], run[i + 1], pid);
    DeliveredIsPrefix(run, i);
    DeliveredIsPrefix(run, j);
    HistoriesOnlyGrow(run, j, i);
  }

  // ----- what is accepted -----

  /** Steps of one producer, with nothing else going on. */
  ghost predicate Alone(steps: seq<State>, pid: Pid) {
    forall n :: 0 <= n < |steps| - 1 ==> pid in steps[n].producers && ProducerStep(steps[n], steps[n + 1], pid)
  }

  /** While the backlog leaves room, an undisturbed enqueue puts its order last, into its slot, and wakes the consumer. */
  lemma EnqueueSucceeds(run: seq<State>, i: nat, pid: Pid, steps: seq<State>)
    requires IsRun(run) && i < |run| && pid in run[i].producers && run[i].producers[pid].LoadHead?
    requires Backlog(run[i]) < run[i].Cap() - 1
    requires |steps| == 6 && steps[0] == run[i] && Alone(steps, pid)
    ensures var s, o := steps[5], run[i].producers[pid].order;
      && s.reserved == run[i].reserved + [o] && s.delivered == run[i].delivered
      && s.producers == run[i].producers[pid := Idle] && s.token && s.Slot(|run[i].reserved|) == Some(o)
  {
    hide Read, Store, ConsumerStep, Next, IsRun;
    DeliveredIsPrefix(run, i);
    var o, h, t := steps[0].producers[pid].order, steps[0].head, steps[0].tail;
    assert ProducerStep(steps[0], steps[1], pid);
    assert steps[1] == steps[0].At(pid, LoadTail(o, h));
    assert ProducerStep(steps[1], steps[2], pid);
    assert steps[2].producers[pid] == Reserve(o, h, t);
    assert ProducerStep(steps[2], steps[3], pid);
    assert steps[3].producers[pid] == Publish(o, t);
    assert ProducerStep(steps[3], steps[4], pid);
    assert ProducerStep(steps[4], steps[5], pid);
    StoreIsLocal(steps[3], t, Some(o), t);
    assert steps[5].Slot(t) == steps[4].Slot(t);
    assert steps[5].producers == run[i].producers[pid := Idle];
  }

  // ----- what a drain takes -----

  ghost predicate ConsumerAlone(steps: seq<State>) {
    forall n :: 0 <= n < |steps| - 1 ==> ConsumerStep(steps[n], steps[n + 1])
  }

  /** Every reserved order is in its slot. */
  ghost predicate AllPublished(s: State) {
    forall pid :: pid in s.producers ==> !s.producers[pid].Publish?
  }

  lemma FrontIsPublished(s: State)
    requires Inv(s) && AllPublished(s) && s.Front() < s.tail
    ensures s.Slot(s.Front()) == Some(s.reserved[s.Front()])
  {
    hide Read, Store;
    assert s.Slot(s.Front()) == Some(s.reserved[s.Front()]) || Pending(s, s.Front());
  }

  lemma DrainingStep(s: State, s': State)
    requires Inv(s) && AllPublished(s) && s.consumer.Draining? && s.consumer.head + s.consumer.count == s.tail
    requires ConsumerStep(s, s')
    ensures Inv(s') && AllPublished(s') && s'.reserved == s.reserved
    ensures if |s.consumer.taken| == s.consumer.count then s'.delivered == s.reserved
      else s'.consumer.Draining? && s'.delivered == s.delivered && s'.tail == s.tail
           && s'.consumer.head == s.consumer.head && s'.consumer.count == s.consumer.count
           && |s'.consumer.taken| == |s.consumer.taken| + 1
  {
    hide Read, Store, Inv;
    ConsumerKeeps(s, s');
    InDrain(s);
    if |s.consumer.taken| < s.consumer.count {
      FrontIsPublished(s);
    } else {
      assert s.reserved[..s.tail] == s.reserved;
    }
  }

  lemma InDrain(s: State)
    requires Inv(s) && s.consumer.Draining?
    ensures s.consumer.head == s.head && s.Front() == s.head + |s.consumer.taken| <= s.tail == |s.reserved|
    ensures |s.consumer.taken| <= s.consumer.count && s.delivered + s.consumer.taken == s.reserved[..s.Front()]
  {
    hide Read, Store;
  }

  lemma {:induction false} DrainRunsOn(steps: seq<State>, n: nat)
    requires ConsumerAlone(steps) && 0 < n < |steps|
    requires var s := steps[0];
      && Inv(s) && AllPublished(s) && s.consumer.Draining? && s.consumer.taken == []
      && s.consumer.head + s.consumer.count == s.tail && n <= s.consumer.count + 1
    ensures steps[n].reserved == steps[0].reserved
    ensures var s, first := steps[n], steps[0].consumer;
      if n == first.count + 1 then s.delivered == steps[0].reserved
      else Inv(s) && AllPublished(s) && s.consumer.Draining? && s.tail == steps[0].tail
           && s.consumer.head == first.head && s.consumer.count == first.count && |s.consumer.taken| == n
  {
    hide Inv, ConsumerStep, AllPublished;
    assert ConsumerStep(steps[n - 1], steps[n]);
    if n > 1 { DrainRunsOn(steps, n - 1); }
    DrainingStep(steps[n - 1], steps[n]);
  }

  /** With every reservation published, a consumer left to itself has delivered all of them after one drain. */
  lemma DrainTakesAll(run: seq<State>, i: nat, steps: seq<State>)
    requires IsRun(run) && i < |run| && run[i].consumer == Top && AllPublished(run[i])
    requires ConsumerAlone(steps) && |steps| > 3 && |steps| == Backlog(run[i]) + 4 && steps[0] == run[i]
    ensures steps[|steps| - 1].delivered == steps[|steps| - 1].reserved == run[i].reserved
  {
    hide Read, Store, Inv;
    RunKeeps(run, i);
    DeliveredIsPrefix(run, i);
    var s := run[i];
    assert ConsumerStep(steps[0], steps[1]) && ConsumerStep(steps[1], steps[2]) && ConsumerStep(steps[2], steps[3]);
    if s.head < s.tail {
      ConsumerKeeps(steps[0], steps[1]);
      ConsumerKeeps(steps[1], steps[2]);
      var rest := steps[2..];
      assert forall n :: 0 <= n < |rest| ==> rest[n] == steps[n + 2];
      forall n | 0 <= n < |rest| - 1 ensures ConsumerStep(rest[n], rest[n + 1]) {
        assert ConsumerStep(steps[n + 2], steps[n + 2 + 1]);
      }
      DrainRunsOn(rest, Backlog(s) + 1);
    } else {
      assert s.delivered == s.reserved;
    }
  }

  // ----- when the engine sleeps -----

  /** The consumer looked at the tail at step j and has not moved since. */
  ghost predicate LookedAt(run: seq<State>, j: nat, i: nat) {
    && j < i < |run| && run[j].consumer.StallTail?
    && forall n :: j < n <= i ==> run[n].consumer == run[i].consumer && run[n].head == run[j].head
  }

  lemma StallingStep(s: State, s': State)
    requires Inv(s) && Next(s, s') && s'.consumer.StallSlot?
    ensures s'.head == s.head
    ensures s.consumer == s'.consumer || (s.consumer.StallTail? && s'.consumer == StallSlot(s.head, s.tail))
  {
    hide Read, Store;
    if !ConsumerStep(s, s') {
      var q :| q in s.producers && ProducerStep(s, s', q);
    }
  }

  lemma {:induction false} TailWasLoaded(run: seq<State>, i: nat) returns (j: nat)
    requires IsRun(run) && i < |run| && run[i].consumer.StallSlot?
    ensures LookedAt(run, j, i) && run[i].consumer == StallSlot(run[j].head, run[j].tail)
  {
    hide Next, Inv;
    if i > 0 {
      assert Next(run[i - 1], run[i]);
      RunKeeps(run, i - 1);
      StallingStep(run[i - 1], run[i]);
      if run[i - 1].consumer == run[i].consumer {
        j := TailWasLoaded(run, i - 1);
      } else {
        j := i - 1;
      }
    }
  }

  lemma LeavesStalling(s: State, s': State)
    requires Next(s, s') && s.consumer.StallSlot? && s'.consumer != s.consumer
    ensures var StallSlot(h, t) := s.consumer;
      s'.consumer == if t > h && s.Slot(h) == None then Top else Blocked
  {
    hide Read, Store;
    ProducersLeaveConsumer(s, s');
  }

  lemma ProducersLeaveConsumer(s: State, s': State)
    requires Next(s, s')
    ensures ConsumerStep(s, s') || s'.consumer == s.consumer
  {
    hide Read, Store;
    if !ConsumerStep(s, s') {
      var q :| q in s.producers && ProducerStep(s, s', q);
    }
  }

  /**
   * After an empty drain the engine goes to sleep exactly when all that was reserved as it looked had been delivered, or
   * the next order has been published since; for an order still to be published it stays awake.
   */
  lemma SleepsIff(run: seq<State>, i: nat) returns (j: nat)
    requires IsRun(run) && i + 1 < |run| && run[i].consumer.StallSlot? && run[i + 1].consumer != run[i].consumer
    ensures LookedAt(run, j, i)
    ensures run[i + 1].consumer == Blocked <==> Backlog(run[j]) == 0 || run[i].Ready()
    ensures run[i + 1].consumer == Top <==> Backlog(run[j]) > 0 && !run[i].Ready()
  {
    hide Read, Store, ProducerStep, ConsumerStep, Next;
    j := TailWasLoaded(run, i);
    assert Next(run[i], run[i + 1]);
    LeavesStalling(run[i], run[i + 1]);
    DeliveredIsPrefix(run, i);
    DeliveredIsPrefix(run, j);
    HistoriesOnlyGrow(run, j, i);
  }
}
