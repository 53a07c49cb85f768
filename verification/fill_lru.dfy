/** The bounded cache of settled fill ids: a recency list with a capacity and a time to live. */
module FillLru {
  import opened MatchingTypes

  const DEFAULT_CAPACITY: nat := 100_000

  datatype FillEntry = FillEntry(key: Id, accessedAt: int)

  // ----- the recency list -----

  function Find(order: seq<FillEntry>, key: Id): (i: nat)
    ensures i <= |order|
    ensures i < |order| ==> order[i].key == key
    ensures forall j :: 0 <= j < i ==> order[j].key != key
  {
    if order == [] || order[0].key == key then 0 else 1 + Find(order[1..], key)
  }

  predicate Knows(order: seq<FillEntry>, key: Id) {
    exists i :: 0 <= i < |order| && order[i].key == key
  }

  function Drop(order: seq<FillEntry>, i: nat): seq<FillEntry>
    requires i < |order|
  {
    order[..i] + order[i + 1..]
  }

  predicate Expired(e: FillEntry, ttl: int, now: int) {
    ttl > 0 && now - e.accessedAt > ttl
  }

  /** The front of the list whose last entry has not expired. */
  function Unexpired(order: seq<FillEntry>, ttl: int, now: int): (r: seq<FillEntry>)
    ensures r <= order
  {
    if order != [] && Expired(order[|order| - 1], ttl, now) then Unexpired(order[..|order| - 1], ttl, now) else order
  }

  function Evicted(order: seq<FillEntry>, capacity: nat, ttl: int, now: int): (r: seq<FillEntry>)
    ensures r <= order
  {
    Unexpired(if |order| > capacity then order[..capacity] else order, ttl, now)
  }

  function Touched(order: seq<FillEntry>, key: Id, now: int): seq<FillEntry> {
    var i := Find(order, key);
    [FillEntry(key, now)] + (if i < |order| then Drop(order, i) else order)
  }

  datatype Lru = Lru(order: seq<FillEntry>, capacity: nat, ttl: int)

  datatype Op = Contains(key: Id, now: int) | Add(key: Id, now: int) | SetCapacity(n: int, now: int) | SetTtl(d: int, now: int)

  function CapacityOf(n: int): nat {
    if n <= 0 then DEFAULT_CAPACITY else n
  }

  /** A lookup hits when the key is there and has not expired. */
  predicate Hits(s: Lru, key: Id, now: int) {
    var i := Find(s.order, key);
    i < |s.order| && !Expired(s.order[i], s.ttl, now)
  }

  function Step(s: Lru, op: Op): Lru {
    match op
    case Contains(key, now) =>
      var i := Find(s.order, key);
      if i == |s.order| then s
      else if Expired(s.order[i], s.ttl, now) then s.(order := Drop(s.order, i))
      else s.(order := Touched(s.order, key, now))
    case Add(key, now) =>
      if Find(s.order, key) < |s.order| then s.(order := Touched(s.order, key, now))
      else s.(order := Evicted(Touched(s.order, key, now), s.capacity, s.ttl, now))
    case SetCapacity(n, now) => s.(capacity := CapacityOf(n), order := Evicted(s.order, CapacityOf(n), s.ttl, now))
    case SetTtl(d, now) => s.(ttl := d, order := Evicted(s.order, s.capacity, d, now))
  }

  function Run(s: Lru, ops: seq<Op>): Lru {
    if ops == [] then s else Step(Run(s, ops[..|ops| - 1]), ops[|ops| - 1])
  }

  // ----- the cache -----

  class FillLRU {
    var items: map<Id, FillEntry>
    var order: seq<FillEntry>
    var capacity: nat
    var ttl: int

    /** Map and list hold the same entries, one a key. */
    ghost predicate Valid()
      reads this
    {
      && (forall i, j :: 0 <= i < j < |order| ==> order[i].key != order[j].key)
      && (forall i :: 0 <= i < |order| ==> order[i].key in items && items[order[i].key] == order[i])
      && (forall k :: k in items ==> Knows(order, k))
    }

    ghost function State(): Lru
      reads this
    {
      Lru(order, capacity, ttl)
    }

    constructor (capacity: int, ttl: int)
      ensures Valid() && State() == Lru([], CapacityOf(capacity), ttl)
      ensures this.capacity == if capacity <= 0 then 100_000 else capacity
    {
      items := map[];
      order := [];
      this.capacity := if capacity <= 0 then DEFAULT_CAPACITY else capacity;
      this.ttl := ttl;
    }

    method RemoveAt(i: nat)
      requires Valid() && i < |order|
      modifies this`items, this`order
      ensures Valid() && order == Drop(old(order), i)
    {
      var key := order[i].key;
      order := order[..i] + order[i + 1..];
      items := items - {key};
      forall k | k in items ensures Knows(order, k) {
        var j :| 0 <= j < |old(order)| && old(order)[j].key == k;
        assert order[if j < i then j else j - 1].key == k;
      }
    }

    method MoveToFront(i: nat, now: int)
      requires Valid() && i < |order|
      modifies this`items, this`order
      ensures Valid() && order == [FillEntry(old(order)[i].key, now)] + Drop(old(order), i)
    {
      var e := FillEntry(order[i].key, now);
      RemoveAt(i);
      PushFront(e);
    }

    method PushFront(e: FillEntry)
      requires Valid() && !Knows(order, e.key)
      modifies this`items, this`order
      ensures Valid() && order == [e] + old(order)
    {
      order := [e] + order;
      items := items[e.key := e];
      forall k | k in items ensures Knows(order, k) {
        if k == e.key {
          assert order[0].key == k;
        } else {
          var j :| 0 <= j < |old(order)| && old(order)[j].key == k;
          assert order[j + 1].key == k;
        }
      }
    }

    method RemoveBack()
      requires Valid() && |order| > 0
      modifies this`items, this`order
      ensures Valid() && order == old(order)[..|old(order)| - 1]
    {
      RemoveAt(|order| - 1);
    }

    /** The least recently accessed entries above the capacity go, and then those that have expired. */
    method Evict(now: int)
      requires Valid()
      modifies this`items, this`order
      ensures Valid() && order == Evicted(old(order), capacity, ttl, now)
    {
      hide Valid, Expired;
      while |order| > capacity
        invariant Valid() && order <= old(order)
        invariant |order| >= capacity || order == old(order)
      {
        RemoveBack();
      }
      ghost var kept := order;
      assert kept == if |old(order)| > capacity then old(order)[..capacity] else old(order);
      while |order| > 0 && Expired(order[|order| - 1], ttl, now)
        invariant Valid()
        invariant Unexpired(order, ttl, now) == Unexpired(kept, ttl, now)
      {
        RemoveBack();
      }
    }

    method Contains(key: Id, now: int) returns (found: bool)
      requires Valid()
      modifies this`items, this`order
      ensures Valid() && State() == Step(old(State()), Op.Contains(key, now))
      ensures found == Hits(old(State()), key, now)
    {
      hide Expired, Drop;
      FindIsThere(order, key);
      if key !in items {
        return false;
      }
      var i := Find(order, key);
      if Expired(items[key], ttl, now) {
        RemoveAt(i);
        return false;
      }
      MoveToFront(i, now);
      found := true;
    }

    method Add(key: Id, now: int)
      requires Valid()
      modifies this`items, this`order
      ensures Valid() && State() == Step(old(State()), Op.Add(key, now))
    {
      FindIsThere(order, key);
      if key in items {
        MoveToFront(Find(order, key), now);
        return;
      }
      PushFront(FillEntry(key, now));
      Evict(now);
    }

    method SetCapacity(n: int, now: int)
      requires Valid()
      modifies this
      ensures Valid() && State() == Step(old(State()), Op.SetCapacity(n, now)) && capacity == if n <= 0 then 100_000 else n
    {
      capacity := if n <= 0 then DEFAULT_CAPACITY else n;
      Evict(now);
    }

    method SetTTL(d: int, now: int)
      requires Valid()
      modifies this
      ensures Valid() && State() == Step(old(State()), Op.SetTtl(d, now))
    {
      ttl := d;
      Evict(now);
    }
  }

  lemma FindIsThere(order: seq<FillEntry>, key: Id)
    ensures Knows(order, key) <==> Find(order, key) < |order|
  {
  }

  // ----- what every operation keeps -----

  /** Distinct keys, and access times that fall from front to back and lie in the past. */
  ghost predicate Recent(order: seq<FillEntry>, now: int) {
    && (forall i, j :: 0 <= i < j < |order| ==> order[i].key != order[j].key && order[i].accessedAt >= order[j].accessedAt)
    && (forall i :: 0 <= i < |order| ==> order[i].accessedAt <= now)
  }

  ghost predicate Good(s: Lru, now: int) {
    Recent(s.order, now) && |s.order| <= s.capacity && s.capacity > 0
  }

  lemma DropKeeps(order: seq<FillEntry>, i: nat, now: int)
    requires Recent(order, now) && i < |order|
    ensures Recent(Drop(order, i), now)
    ensures forall j :: 0 <= j < |order| - 1 ==> Drop(order, i)[j] == order[if j < i then j else j + 1]
  {
  }

  lemma PrefixKeeps(order: seq<FillEntry>, r: seq<FillEntry>, now: int)
    ensures Recent(order, now) && r <= order ==> Recent(r, now)
  {
  }

  lemma TouchKeeps(order: seq<FillEntry>, key: Id, before: int, now: int)
    requires Recent(order, before) && before <= now
    ensures Recent(Touched(order, key, now), now)
  {
    var i := Find(order, key);
    if i < |order| {
      DropKeeps(order, i, before);
    }
  }

  lemma EvictKeeps(order: seq<FillEntry>, capacity: nat, ttl: int, now: int)
    requires Recent(order, now)
    ensures Recent(Evicted(order, capacity, ttl, now), now) && |Evicted(order, capacity, ttl, now)| <= capacity
  {
    PrefixKeeps(order, Evicted(order, capacity, ttl, now), now);
  }

  lemma LaterIsFine(order: seq<FillEntry>, before: int, now: int)
    ensures Recent(order, before) && before <= now ==> Recent(order, now)
  {
  }

  lemma StepKeepsGood(s: Lru, op: Op, before: int)
    requires Good(s, before) && before <= op.now
    ensures Good(Step(s, op), op.now)
  {
    hide Recent, Evicted, Drop;
    LaterIsFine(s.order, before, op.now);
    match op
    case Contains(key, now) =>
      TouchKeeps(s.order, key, before, now);
      if Find(s.order, key) < |s.order| {
        DropKeeps(s.order, Find(s.order, key), now);
        DropLength(s.order, Find(s.order, key));
      }
    case Add(key, now) =>
      TouchKeeps(s.order, key, before, now);
      if Find(s.order, key) < |s.order| {
        DropLength(s.order, Find(s.order, key));
      } else {
        EvictKeeps(Touched(s.order, key, now), s.capacity, s.ttl, now);
      }
    case SetCapacity(n, now) => EvictKeeps(s.order, CapacityOf(n), s.ttl, now);
    case SetTtl(d, now) => EvictKeeps(s.order, s.capacity, d, now);
  }

  lemma DropLength(order: seq<FillEntry>, i: nat)
    ensures i < |order| ==> |Drop(order, i)| == |order| - 1
  {
  }

  /** The clock never goes back. */
  predicate Clocked(ops: seq<Op>, start: int) {
    ops == [] || (Clocked(ops[..|ops| - 1], start) && TimeAfter(ops[..|ops| - 1], start) <= ops[|ops| - 1].now)
  }

  function TimeAfter(ops: seq<Op>, start: int): int {
    if ops == [] then start else ops[|ops| - 1].now
  }

  /** Every run keeps the list in order and within its capacity. */
  lemma {:induction false} RunIsGood(s: Lru, ops: seq<Op>, start: int)
    requires Good(s, start) && Clocked(ops, start)
    ensures Good(Run(s, ops), TimeAfter(ops, start))
  {
    hide Step, Good;
    if ops != [] {
      RunIsGood(s, ops[..|ops| - 1], start);
      StepKeepsGood(Run(s, ops[..|ops| - 1]), ops[|ops| - 1], TimeAfter(ops[..|ops| - 1], start));
    }
  }

  // ----- what is remembered -----

  /** The keys an operation brings to the front. */
  function Touches(s: Lru, op: Op): set<Id> {
    match op
    case Contains(key, now) => if Hits(s, key, now) then {key} else {}
    case Add(key, _) => {key}
    case _ => {}
  }

  function TouchedIn(s: Lru, ops: seq<Op>): set<Id> {
    if ops == [] then {}
    else TouchedIn(s, ops[..|ops| - 1]) + Touches(Run(s, ops[..|ops| - 1]), ops[|ops| - 1])
  }

  /** The key is in the list, accessed no earlier than since, and everything in front of it is among others. */
  ghost predicate Near(s: Lru, key: Id, since: int, others: set<Id>) {
    exists p :: 0 <= p < |s.order| && s.order[p].key == key && s.order[p].accessedAt >= since
                && forall i :: 0 <= i < p ==> s.order[i].key in others
  }

  lemma {:induction false} PositionIsSmall(order: seq<FillEntry>, p: nat, others: set<Id>)
    requires p <= |order| && forall i, j :: 0 <= i < j < |order| ==> order[i].key != order[j].key
    requires forall i :: 0 <= i < p ==> order[i].key in others
    ensures p <= |others|
    decreases p
  {
    if p > 0 {
      PositionIsSmall(order, p - 1, others - {order[p - 1].key});
    }
  }

  /** Eviction stops before an entry that has not expired. */
  lemma {:induction false} UnexpiredKeeps(order: seq<FillEntry>, ttl: int, now: int, p: nat)
    requires p < |order| && !Expired(order[p], ttl, now)
    ensures p < |Unexpired(order, ttl, now)| && Unexpired(order, ttl, now)[p] == order[p]
    decreases |order|
  {
    if Expired(order[|order| - 1], ttl, now) {
      UnexpiredKeeps(order[..|order| - 1], ttl, now, p);
    }
  }

  lemma NearAt(s: Lru, key: Id, since: int, others: set<Id>, p: nat)
    requires p < |s.order| && s.order[p].key == key && s.order[p].accessedAt >= since
    requires forall i :: 0 <= i < p ==> s.order[i].key in others
    ensures Near(s, key, since, others)
  {
  }

  /** Taking another key out, or moving it to the front, keeps the key near. */
  lemma OtherMoves(s: Lru, key: Id, since: int, others: set<Id>, i: nat, other: Id, now: int)
    requires Near(s, key, since, others) && key !in others && other != key && i < |s.order| && s.order[i].key == other
    ensures Near(s.(order := Drop(s.order, i)), key, since, others)
    ensures Near(s.(order := [FillEntry(other, now)] + Drop(s.order, i)), key, since, others + {other})
  {
    var p :| 0 <= p < |s.order| && s.order[p].key == key && s.order[p].accessedAt >= since
             && forall i :: 0 <= i < p ==> s.order[i].key in others;
    var p' := if i < p then p - 1 else p;
    NearAt(s.(order := Drop(s.order, i)), key, since, others, p');
    NearAt(s.(order := [FillEntry(other, now)] + Drop(s.order, i)), key, since, others + {other}, p' + 1);
  }

  lemma OtherArrives(s: Lru, key: Id, since: int, others: set<Id>, other: Id, now: int)
    requires Near(s, key, since, others)
    ensures Near(s.(order := [FillEntry(other, now)] + s.order), key, since, others + {other})
  {
    var p :| 0 <= p < |s.order| && s.order[p].key == key && s.order[p].accessedAt >= since
             && forall i :: 0 <= i < p ==> s.order[i].key in others;
    NearAt(s.(order := [FillEntry(other, now)] + s.order), key, since, others + {other}, p + 1);
  }

  /** With fewer others than the capacity and its time not up, the key survives an eviction. */
  lemma EvictionSpares(s: Lru, key: Id, since: int, others: set<Id>, capacity: nat, ttl: int, now: int)
    requires Near(s, key, since, others) && |others| < capacity && Recent(s.order, now)
    requires ttl <= 0 || now - since <= ttl
    ensures Near(Lru(Evicted(s.order, capacity, ttl, now), capacity, ttl), key, since, others)
  {
    var p :| 0 <= p < |s.order| && s.order[p].key == key && s.order[p].accessedAt >= since
             && forall i :: 0 <= i < p ==> s.order[i].key in others;
    PositionIsSmall(s.order, p, others);
    UnexpiredKeeps(if |s.order| > capacity then s.order[..capacity] else s.order, ttl, now, p);
    NearAt(Lru(Evicted(s.order, capacity, ttl, now), capacity, ttl), key, since, others, p);
  }

  /** The key's time is not up under the limit in force after the operation, nor are there too many others. */
  predicate Spared(s: Lru, op: Op, since: int, others: set<Id>) {
    var t := Step(s, op);
    |others| < t.capacity && (t.ttl <= 0 || op.now - since <= t.ttl)
  }

  lemma FoundNear(s: Lru, key: Id, since: int, others: set<Id>)
    requires Near(s, key, since, others) && key !in others
    ensures Find(s.order, key) < |s.order| && s.order[Find(s.order, key)].accessedAt >= since
  {
    var p :| 0 <= p < |s.order| && s.order[p].key == key && s.order[p].accessedAt >= since
             && forall i :: 0 <= i < p ==> s.order[i].key in others;
    var f := Find(s.order, key);
    assert f <= p;
  }

  lemma StepKeepsNear(s: Lru, op: Op, before: int, key: Id, since: int, others: set<Id>)
    requires Good(s, before) && before <= op.now && Near(s, key, since, others) && key !in others
    requires Spared(s, op, since, others + Touches(s, op) - {key})
    ensures Near(Step(s, op), key, since, others + Touches(s, op) - {key})
  {
    hide Recent, Evicted, Near, Drop;
    LaterIsFine(s.order, before, op.now);
    FoundNear(s, key, since, others);
    StillPast(s, key, before);
    match op
    case Contains(k, now) =>
      if k == key {
        NearAt(Step(s, op), key, since, others + Touches(s, op) - {key}, 0);
      } else {
        assert others + {k} - {key} == others + {k} && others + {} - {key} == others;
        if Find(s.order, k) < |s.order| {
          OtherMoves(s, key, since, others, Find(s.order, k), k, now);
        }
      }
    case Add(k, now) =>
      if k == key {
        NearAt(Step(s, op), key, since, others + Touches(s, op) - {key}, 0);
      } else {
        assert others + {k} - {key} == others + {k};
        if Find(s.order, k) < |s.order| {
          OtherMoves(s, key, since, others, Find(s.order, k), k, now);
        } else {
          OtherArrives(s, key, since, others, k, now);
          TouchKeeps(s.order, k, before, now);
          EvictionSpares(s.(order := Touched(s.order, k, now)), key, since, others + {k}, s.capacity, s.ttl, now);
        }
      }
    case SetCapacity(n, now) =>
      assert others + {} - {key} == others;
      EvictionSpares(s, key, since, others, CapacityOf(n), s.ttl, now);
    case SetTtl(d, now) =>
      assert others + {} - {key} == others;
      EvictionSpares(s, key, since, others, s.capacity, d, now);
  }

  lemma StillPast(s: Lru, key: Id, before: int)
    ensures Good(s, before) && Find(s.order, key) < |s.order| ==> s.order[Find(s.order, key)].accessedAt <= before
  {
  }

  /** At every point of the run the key's time is not up and fewer other keys than the capacity were touched. */
  ghost predicate AlwaysSpared(s: Lru, ops: seq<Op>, key: Id, since: int) {
    ops == [] ||
      var earlier := ops[..|ops| - 1];
      AlwaysSpared(s, earlier, key, since) && Spared(Run(s, earlier), ops[|ops| - 1], since, TouchedIn(s, ops) - {key})
  }

  lemma RemoveTwice(before: set<Id>, more: set<Id>, key: Id)
    ensures (before - {key}) + more - {key} == before + more - {key}
  {
  }

  lemma {:induction false} RunKeepsNear(s: Lru, ops: seq<Op>, start: int, key: Id, since: int)
    requires Good(s, start) && Clocked(ops, start) && AlwaysSpared(s, ops, key, since)
    requires s.order != [] && s.order[0] == FillEntry(key, since)
    ensures Near(Run(s, ops), key, since, TouchedIn(s, ops) - {key})
  {
    hide Good, Near, Spared, Step, Touches;
    if ops == [] {
      NearAt(s, key, since, TouchedIn(s, ops) - {key}, 0);
    } else {
      var n := |ops| - 1;
      RunKeepsNear(s, ops[..n], start, key, since);
      RunIsGood(s, ops[..n], start);
      RemoveTwice(TouchedIn(s, ops[..n]), Touches(Run(s, ops[..n]), ops[n]), key);
      StepKeepsNear(Run(s, ops[..n]), ops[n], TimeAfter(ops[..n], start), key, since, TouchedIn(s, ops[..n]) - {key});
    }
  }

  /**
   * A recently seen fill is never forgotten: while fewer other keys than the capacity are touched, a key just touched
   * is reported present at any time within the time to live.
   */
  lemma RecentIsRemembered(s: Lru, ops: seq<Op>, start: int, key: Id, since: int, now: int)
    requires Good(s, start) && Clocked(ops, start) && AlwaysSpared(s, ops, key, since)
    requires s.order != [] && s.order[0] == FillEntry(key, since)
    requires Run(s, ops).ttl <= 0 || now - since <= Run(s, ops).ttl
    ensures Hits(Run(s, ops), key, now)
  {
    hide Good, Near, Run, TouchedIn, AlwaysSpared;
    RunKeepsNear(s, ops, start, key, since);
    FoundNear(Run(s, ops), key, since, TouchedIn(s, ops) - {key});
  }

  /** The key was last accessed by then, if it is there at all. */
  ghost predicate NotSince(s: Lru, key: Id, since: int) {
    forall i :: 0 <= i < |s.order| && s.order[i].key == key ==> s.order[i].accessedAt <= since
  }

  lemma StepLeavesOld(s: Lru, op: Op, key: Id, since: int)
    requires NotSince(s, key, since) && key !in Touches(s, op)
    ensures NotSince(Step(s, op), key, since)
  {
    match op
    case Contains(k, now) =>
    case Add(k, now) =>
    case _ =>
  }

  lemma {:induction false} RunLeavesOld(s: Lru, ops: seq<Op>, key: Id, since: int)
    requires NotSince(s, key, since) && key !in TouchedIn(s, ops)
    ensures NotSince(Run(s, ops), key, since)
  {
    hide NotSince, Step;
    if ops != [] {
      var n := |ops| - 1;
      RunLeavesOld(s, ops[..n], key, since);
      StepLeavesOld(Run(s, ops[..n]), ops[n], key, since);
    }
  }

  /** A fill whose time is up is reported absent, however full or empty the cache, and forgotten by the lookup. */
  lemma ExpiredIsForgotten(s: Lru, ops: seq<Op>, start: int, key: Id, since: int, now: int)
    requires Good(s, start) && Clocked(ops, start)
    requires NotSince(s, key, since) && key !in TouchedIn(s, ops)
    requires Run(s, ops).ttl > 0 && now - since > Run(s, ops).ttl
    ensures !Hits(Run(s, ops), key, now) && !Knows(Step(Run(s, ops), Op.Contains(key, now)).order, key)
  {
    hide Good, Run, TouchedIn;
    RunLeavesOld(s, ops, key, since);
    RunIsGood(s, ops, start);
    OneOfEach(Run(s, ops), key, TimeAfter(ops, start), now);
  }

  lemma OneOfEach(s: Lru, key: Id, before: int, now: int)
    requires Good(s, before) && !Hits(s, key, now)
    ensures !Knows(Step(s, Op.Contains(key, now)).order, key)
  {
    FindIsThere(s.order, key);
  }

  /** Adding or finding a key puts it at the front. */
  lemma TouchedIsFirst(s: Lru, key: Id, now: int, before: int)
    requires Good(s, before) && before <= now
    ensures Step(s, Op.Add(key, now)).order != [] && Step(s, Op.Add(key, now)).order[0] == FillEntry(key, now)
    ensures Hits(s, key, now) ==> Step(s, Op.Contains(key, now)).order[0] == FillEntry(key, now)
  {
    var first := Touched(s.order, key, now);
    if Find(s.order, key) == |s.order| {
      UnexpiredKeeps(if |first| > s.capacity then first[..s.capacity] else first, s.ttl, now, 0);
    }
  }
}
