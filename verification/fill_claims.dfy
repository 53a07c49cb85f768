/**
 * One fill id, handled, failed, retried and crashed on by any number of workers on any number of instances. A worker
 * claims the id in the shared store before it settles; each step is one atomic access. Expiry and loss of the shared
 * store are steps of their own, so that what depends on their absence is visible.
 */
module FillClaims {
  type Worker = nat
  type Instance = nat

  /** Where a call of SettleFill stands. */
  datatype Phase =
    | Idle       // not in a call
    | Checked    // the local cache does not know the id
    | Claimed    // this call's SetNX succeeded
    | Unclaimed  // the shared store did not answer: local deduplication only
    | Failed     // the settlement was rolled back
    | Committed  // the settlement is in

  datatype State = State(
    workers: map<Worker, Phase>,
    home: map<Worker, Instance>,
    claim: bool,
    known: set<Instance>,
    commits: nat)
  {
    predicate Has(w: Worker) { w in workers && w in home }

    function At(w: Worker, p: Phase): State { this.(workers := workers[w := p]) }
  }

  datatype Action =
    | Check(w: Worker)
    | TryClaim(w: Worker)
    | Degrade(w: Worker)
    | BadPair(w: Worker)
    | Commit(w: Worker)
    | Fail(w: Worker)
    | Release(w: Worker)
    | GiveUpRelease(w: Worker)
    | Remember(w: Worker)
    | Crash(w: Worker)
    | Evict(i: Instance)
    | Expire

  predicate Enabled(s: State, a: Action) {
    match a
    case Check(w) => s.Has(w) && s.workers[w] == Idle
    case TryClaim(w) => s.Has(w) && s.workers[w] == Checked
    case Degrade(w) => s.Has(w) && s.workers[w] == Checked
    case BadPair(w) => s.Has(w) && (s.workers[w] == Claimed || s.workers[w] == Unclaimed)
    case Commit(w) => s.Has(w) && (s.workers[w] == Claimed || s.workers[w] == Unclaimed)
    case Fail(w) => s.Has(w) && (s.workers[w] == Claimed || s.workers[w] == Unclaimed)
    case Release(w) => s.Has(w) && s.workers[w] == Failed
    case GiveUpRelease(w) => s.Has(w) && s.workers[w] == Failed
    case Remember(w) => s.Has(w) && s.workers[w] == Committed
    case Crash(w) => s.Has(w)
    case Evict(_) => true
    case Expire => true
  }

  /** An action that is not enabled has no effect. */
  function Next(s: State, a: Action): State {
    if !Enabled(s, a) then s
    else
      match a
      case Check(w) => if s.home[w] in s.known then s else s.At(w, Checked)
      case TryClaim(w) =>
        if s.claim then s.At(w, Idle).(known := s.known + {s.home[w]})   // someone else's: a no-op
        else s.At(w, Claimed).(claim := true)
      case Degrade(w) => s.At(w, Unclaimed)
      case BadPair(w) => s.At(w, Idle)             // the pair does not parse: an error return that keeps the claim
      case Commit(w) => s.At(w, Committed).(commits := s.commits + 1)
      case Fail(w) => s.At(w, if s.workers[w] == Claimed then Failed else Idle)
      case Release(w) => s.At(w, Idle).(claim := false)
      case GiveUpRelease(w) => s.At(w, Idle)       // the delete itself failed
      case Remember(w) => s.At(w, Idle).(known := s.known + {s.home[w]})
      case Crash(w) => s.At(w, Idle)
      case Evict(i) => s.(known := s.known - {i})
      case Expire => s.(claim := false)
  }

  function Run(s: State, actions: seq<Action>): State {
    if actions == [] then s else Next(Run(s, actions[..|actions| - 1]), actions[|actions| - 1])
  }

  predicate Init(s: State) {
    !s.claim && s.known == {} && s.commits == 0 && forall w :: w in s.workers ==> s.workers[w] == Idle
  }

  /** The shared store answers and no claim expires. */
  predicate Reliable(a: Action) {
    !a.Degrade? && a != Expire
  }

  ghost predicate AllReliable(actions: seq<Action>) {
    forall i :: 0 <= i < |actions| ==> Reliable(actions[i])
  }

  predicate Holds(s: State, w: Worker) {
    s.Has(w) && (s.workers[w] == Claimed || s.workers[w] == Failed)
  }

  ghost predicate Inv(s: State) {
    && s.commits <= 1
    && (forall w :: w in s.workers && s.Has(w) ==> s.workers[w] != Unclaimed)
    && (forall w :: w in s.workers && Holds(s, w) ==> s.claim && s.commits == 0)
    && (forall v, w :: v in s.workers && w in s.workers && Holds(s, v) && Holds(s, w) ==> v == w)
    && (s.commits == 1 ==> s.claim)
    && (forall w :: w in s.workers && s.Has(w) && s.workers[w] == Committed ==> s.commits == 1)
  }

  lemma NextKeeps(s: State, a: Action)
    requires Inv(s) && Reliable(a)
    ensures Inv(Next(s, a))
  {
    match a
    case TryClaim(w) =>
    case Commit(w) =>
    case Release(w) =>
    case _ =>
  }

  lemma {:induction false} InvHolds(s: State, actions: seq<Action>)
    requires Inv(s) && AllReliable(actions)
    ensures Inv(Run(s, actions))
    decreases |actions|
  {
    if actions != [] {
      var n := |actions| - 1;
      InvHolds(s, actions[..n]);
      NextKeeps(Run(s, actions[..n]), actions[n]);
    }
  }

  /** However instances crash, fail, retry and forget, the store commits the fill at most once. */
  lemma CommitsAtMostOnce(s: State, actions: seq<Action>)
    requires Init(s) && AllReliable(actions)
    ensures Run(s, actions).commits <= 1 && Inv(Run(s, actions))
  {
    InvHolds(s, actions);
  }

  // ----- claims nobody will release -----

  /** Claimed, not committed, and no call left that could commit or release. */
  ghost predicate Orphaned(s: State) {
    s.claim && s.commits == 0 && forall w :: s.Has(w) ==> !Holds(s, w) && s.workers[w] != Unclaimed
  }

  /** A call that holds the claim and dies, fails on the pair or cannot delete it leaves the claim to nobody. */
  lemma LeavingOrphans(s: State, w: Worker, a: Action)
    requires Inv(s) && Holds(s, w) && Enabled(s, a) && (a == Crash(w) || a == BadPair(w) || a == GiveUpRelease(w))
    ensures Orphaned(Next(s, a))
  {
  }

  /** Nothing but its deletion by the call that failed, or its expiry, ends a claim. */
  lemma ClaimEndsBy(s: State, a: Action)
    requires s.claim && !Next(s, a).claim
    ensures a == Expire || (a.Release? && s.Has(a.w) && s.workers[a.w] == Failed)
  {
  }

  lemma {:induction false} OrphanStays(s: State, actions: seq<Action>)
    requires Inv(s) && Orphaned(s)
    requires AllReliable(actions)
    ensures Orphaned(Run(s, actions))
    decreases |actions|
  {
    if actions != [] {
      var n := |actions| - 1;
      OrphanStays(s, actions[..n]);
    }
  }

  lemma RunNothing(s: State)
    ensures Run(s, []) == s
  {
  }

  lemma RunStep(s: State, actions: seq<Action>, a: Action)
    ensures Run(s, actions + [a]) == Next(Run(s, actions), a)
  {
    assert (actions + [a])[..|actions|] == actions;
  }

  // ----- when the fill can still be settled -----

  /** The shared store answers, and no claim and no cached id is lost before its time. */
  predicate Steady(a: Action) {
    Reliable(a) && !a.Evict?
  }

  ghost predicate AllSteady(actions: seq<Action>) {
    forall i :: 0 <= i < |actions| ==> Steady(actions[i])
  }

  /** Some continuation commits the fill, without any cache having to forget it. */
  ghost predicate CanSettle(s: State) {
    exists actions :: AllSteady(actions) && Run(s, actions).commits > 0
  }

  /** A worker that will claim the fill if it finds it unclaimed: past its cache, or not held up by it. */
  predicate Willing(s: State, w: Worker) {
    s.Has(w) && (s.workers[w] == Checked || s.home[w] !in s.known)
  }

  /** A call holds the claim, or the claim is free or about to be and some worker will take it. */
  ghost predicate Settlable(s: State) {
    || (exists w :: s.Has(w) && s.workers[w] == Claimed)
    || ((!s.claim || exists w :: s.Has(w) && s.workers[w] == Failed) && exists w :: Willing(s, w))
  }

  lemma UnsettlableStays(s: State, a: Action)
    requires Inv(s) && s.commits == 0 && !Settlable(s) && Steady(a)
    ensures Next(s, a).commits == 0 && !Settlable(Next(s, a))
  {
    var t := Next(s, a);
    assert forall w :: t.Has(w) ==> s.Has(w) && t.workers[w] != Claimed by {
      assert forall w :: Willing(s, w) ==> s.claim;
      assert forall w :: s.Has(w) && s.workers[w] == Checked ==> Willing(s, w);
    }
    if exists w :: Willing(s, w) {
      assert t.claim && forall w :: t.Has(w) ==> t.workers[w] != Failed;
    } else {
      assert forall w :: s.Has(w) ==> s.workers[w] != Checked && s.home[w] in s.known by {
        assert forall w :: s.Has(w) ==> !Willing(s, w);
      }
    }
  }

  lemma {:induction false} NeverSettles(s: State, actions: seq<Action>)
    requires Inv(s) && s.commits == 0 && !Settlable(s) && AllSteady(actions)
    ensures var t := Run(s, actions); Inv(t) && t.commits == 0 && !Settlable(t)
    decreases |actions|
  {
    if actions != [] {
      var n := |actions| - 1;
      NeverSettles(s, actions[..n]);
      UnsettlableStays(Run(s, actions[..n]), actions[n]);
      NextKeeps(Run(s, actions[..n]), actions[n]);
    }
  }

  /** A willing worker takes a free claim and commits. */
  lemma FreshAttempt(s: State, actions: seq<Action>, w: Worker) returns (more: seq<Action>)
    requires AllSteady(actions) && !Run(s, actions).claim && Willing(Run(s, actions), w)
    ensures AllSteady(more) && Run(s, more).commits > 0
  {
    hide Run;
    var checked := actions;
    if Run(s, actions).workers[w] != Checked {
      RunStep(s, actions, Crash(w));
      RunStep(s, actions + [Crash(w)], Check(w));
      checked := actions + [Crash(w)] + [Check(w)];
    }
    assert Run(s, checked).Has(w) && Run(s, checked).workers[w] == Checked && !Run(s, checked).claim;
    RunStep(s, checked, TryClaim(w));
    RunStep(s, checked + [TryClaim(w)], Commit(w));
    more := checked + [TryClaim(w)] + [Commit(w)];
  }

  /**
   * A fill that is not committed can still be settled exactly when some call holds its claim, or the claim is free, or
   * due to be released, and some worker is past its cache or on an instance that has not cached the fill.
   */
  lemma SettlableIff(s: State)
    requires Inv(s) && s.commits == 0
    ensures CanSettle(s) <==> Settlable(s)
  {
    hide Run, Next;
    if Settlable(s) {
      var more := Settles(s);
    } else {
      forall actions | AllSteady(actions) ensures Run(s, actions).commits == 0 {
        NeverSettles(s, actions);
      }
    }
  }

  lemma Settles(s: State) returns (more: seq<Action>)
    requires Inv(s) && s.commits == 0 && Settlable(s)
    ensures AllSteady(more) && Run(s, more).commits > 0
  {
    hide Run;
    RunNothing(s);
    if v :| s.Has(v) && s.workers[v] == Claimed {
      RunStep(s, [], Commit(v));
      more := [] + [Commit(v)];
    } else {
      var w :| Willing(s, w);
      if !s.claim {
        more := FreshAttempt(s, [], w);
      } else {
        var v :| s.Has(v) && s.workers[v] == Failed;
        RunStep(s, [], Release(v));
        assert Willing(Run(s, [] + [Release(v)]), w);
        more := FreshAttempt(s, [] + [Release(v)], w);
      }
    }
  }

  /**
   * A call that lost the race for the claim caches the fill as settled. When the holder then fails and gives its claim
   * back for a retry, no call on that instance will make one: the claim is free, and the fill stays unsettled.
   */
  lemma ReleasedButRemembered() returns (s: State, actions: seq<Action>)
    ensures Init(s) && AllSteady(actions)
    ensures var t := Run(s, actions); Inv(t) && !t.claim && t.commits == 0 && !CanSettle(t)
  {
    hide Next, Run;
    s := State(map[0 := Idle, 1 := Idle], map[0 := 0, 1 := 0], false, {}, 0);
    actions := [Check(0), Check(1), TryClaim(0), TryClaim(1), Fail(0), Release(0)];
    CommitsAtMostOnce(s, actions);
    var t := PoisonedRun(s, actions);
    SettlableIff(t);
  }

  lemma PoisonedRun(s: State, actions: seq<Action>) returns (t: State)
    requires s == State(map[0 := Idle, 1 := Idle], map[0 := 0, 1 := 0], false, {}, 0)
    requires actions == [Check(0), Check(1), TryClaim(0), TryClaim(1), Fail(0), Release(0)]
    ensures t == Run(s, actions) && t.workers == map[0 := Idle, 1 := Idle] && t.home == map[0 := 0, 1 := 0]
    ensures !t.claim && t.known == {0} && t.commits == 0
  {
    hide Run;
    RunNothing(s);
    var a1 := [Check(0)];
    RunStep(s, [], Check(0));
    assert [] + [Check(0)] == a1;
    RunStep(s, a1, Check(1));
    var a2 := a1 + [Check(1)];
    assert Run(s, a2) == s.(workers := map[0 := Checked, 1 := Checked]);
    t := RaceLost(s, a2);
    assert a2 + [TryClaim(0)] + [TryClaim(1)] + [Fail(0)] + [Release(0)] == actions;
  }

  /** Of two calls past the cache one claims, the other caches the fill, and the first one fails and gives its claim back. */
  lemma RaceLost(s: State, actions: seq<Action>) returns (t: State)
    requires Run(s, actions) == State(map[0 := Checked, 1 := Checked], map[0 := 0, 1 := 0], false, {}, 0)
    ensures t == Run(s, actions + [TryClaim(0)] + [TryClaim(1)] + [Fail(0)] + [Release(0)])
    ensures t.workers == map[0 := Idle, 1 := Idle] && t.home == map[0 := 0, 1 := 0]
    ensures !t.claim && t.known == {0} && t.commits == 0
  {
    hide Run;
    RunStep(s, actions, TryClaim(0));
    var a3 := actions + [TryClaim(0)];
    RunStep(s, a3, TryClaim(1));
    var a4 := a3 + [TryClaim(1)];
    assert Run(s, a4).workers == map[0 := Claimed, 1 := Idle];
    RunStep(s, a4, Fail(0));
    var a5 := a4 + [Fail(0)];
    RunStep(s, a5, Release(0));
    t := Run(s, a5 + [Release(0)]);
    assert t.workers == map[0 := Idle, 1 := Idle];
  }

  // ----- without the shared store, or past its expiry -----

  /** From here on the shared store answers and claims last, and yet the fill is committed more than once. */
  ghost predicate CanRecommit(s: State) {
    exists actions :: AllReliable(actions) && Run(s, actions).commits > 1
  }

  /** A continuation that has committed as often and left no claim, and a worker to make the next commit. */
  lemma CommitsAgain(s: State, actions: seq<Action>, w: Worker) returns (more: seq<Action>)
    requires AllReliable(actions) && !Run(s, actions).claim && Run(s, actions).Has(w)
    ensures AllReliable(more) && Run(s, more).commits == Run(s, actions).commits + 1
  {
    hide Run;
    var t := Run(s, actions);
    RunStep(s, actions, Crash(w));
    var a1 := actions + [Crash(w)];
    RunStep(s, a1, Evict(t.home[w]));
    var a2 := a1 + [Evict(t.home[w])];
    RunStep(s, a2, Check(w));
    var a3 := a2 + [Check(w)];
    RunStep(s, a3, TryClaim(w));
    var a4 := a3 + [TryClaim(w)];
    assert Run(s, a4).workers[w] == Claimed && Run(s, a4).commits == t.commits;
    RunStep(s, a4, Commit(w));
    more := a4 + [Commit(w)];
  }

  // -- one call degrades --

  predicate Degraded(s: State, w: Worker) {
    s.Has(w) && s.workers[w] == Unclaimed
  }

  /** The claim is taken and nobody holds it; at most one call can still commit, and only once. */
  ghost predicate OneLeft(s: State) {
    && s.claim && s.commits <= 1
    && (forall w :: w in s.workers ==> !Holds(s, w))
    && (forall w :: w in s.workers && Degraded(s, w) ==> s.commits == 0)
    && (forall v, w :: v in s.workers && w in s.workers && Degraded(s, v) && Degraded(s, w) ==> v == w)
  }

  lemma OneLeftStays(s: State, a: Action)
    requires OneLeft(s) && Reliable(a)
    ensures OneLeft(Next(s, a))
  {
  }

  lemma {:induction false} OneLeftHolds(s: State, actions: seq<Action>)
    requires OneLeft(s) && AllReliable(actions)
    ensures OneLeft(Run(s, actions))
    decreases |actions|
  {
    if actions != [] {
      var n := |actions| - 1;
      OneLeftHolds(s, actions[..n]);
      OneLeftStays(Run(s, actions[..n]), actions[n]);
    }
  }

  /** A call that goes on without the shared store makes a second commit possible exactly when the claim is no orphan. */
  lemma DegradedIff(s: State, w: Worker)
    requires Inv(s) && Enabled(s, Degrade(w))
    ensures CanRecommit(Next(s, Degrade(w))) <==> !Orphaned(s)
  {
    var t := Next(s, Degrade(w));
    RunNothing(t);
    if Orphaned(s) {
      forall actions | AllReliable(actions) ensures Run(t, actions).commits <= 1 {
        OneLeftHolds(t, actions);
      }
    } else {
      RunStep(t, [], Commit(w));
      var a1 := [] + [Commit(w)];
      if s.commits == 0 {
        if v :| Holds(s, v) {
          HolderCommits(t, a1, w, v);
        } else {
          var more := CommitsAgain(t, a1, w);
        }
      } else {
        assert AllReliable(a1) && Run(t, a1).commits > 1;
      }
    }
  }

  /** Beside the commit of w, the holder commits too, or gives its claim back for another attempt. */
  lemma HolderCommits(t: State, actions: seq<Action>, w: Worker, v: Worker)
    requires AllReliable(actions) && Run(t, actions).commits > 0 && Run(t, actions).Has(w) && Holds(Run(t, actions), v)
    ensures CanRecommit(t)
  {
    hide Run;
    if Run(t, actions).workers[v] == Claimed {
      RunStep(t, actions, Commit(v));
      assert AllReliable(actions + [Commit(v)]);
    } else {
      RunStep(t, actions, Release(v));
      var more := CommitsAgain(t, actions + [Release(v)], w);
    }
  }

  // -- the claim expires --

  /** The claim's loss lets the fill in again: it is committed, or a call is at work on it. */
  ghost predicate ExpiresTooSoon(s: State) {
    || (s.commits == 1 && exists w :: s.Has(w))
    || (exists v :: s.Has(v) && s.workers[v] == Claimed)
    || (exists v, w :: v != w && s.Has(v) && s.Has(w) && s.workers[v] == Failed)
  }

  /** One failed call, with nobody beside it, and no claim left. */
  ghost predicate LoneFailed(s: State) {
    s.commits == 0 && !s.claim && exists v :: Alone(s, v) && s.workers[v] == Failed
  }

  ghost predicate Alone(s: State, v: Worker) {
    s.Has(v) && forall w :: w in s.workers && s.Has(w) ==> w == v
  }

  /** Nobody there to do anything. */
  predicate Deserted(s: State) {
    s.commits <= 1 && forall w :: w in s.workers ==> w !in s.home
  }

  lemma BarredStays(s: State, a: Action)
    requires (Inv(s) || LoneFailed(s) || Deserted(s)) && Reliable(a)
    ensures Inv(Next(s, a)) || LoneFailed(Next(s, a)) || Deserted(Next(s, a))
  {
    if Inv(s) {
      NextKeeps(s, a);
    } else if LoneFailed(s) {
      LoneFailedMoves(s, a);
    }
  }

  lemma LoneFailedMoves(s: State, a: Action)
    requires LoneFailed(s) && Reliable(a)
    ensures Inv(Next(s, a)) || LoneFailed(Next(s, a))
  {
    var v :| Alone(s, v) && s.workers[v] == Failed;
    var t := Next(s, a);
    assert Alone(t, v);
  }

  lemma {:induction false} BarredHolds(s: State, actions: seq<Action>)
    requires (Inv(s) || LoneFailed(s) || Deserted(s)) && AllReliable(actions)
    ensures var t := Run(s, actions); Inv(t) || LoneFailed(t) || Deserted(t)
    decreases |actions|
  {
    if actions != [] {
      var n := |actions| - 1;
      BarredHolds(s, actions[..n]);
      BarredStays(Run(s, actions[..n]), actions[n]);
    }
  }

  /** The expiry of the claim makes a second commit possible exactly when the fill is committed or a call is at work. */
  lemma ExpiredIff(s: State)
    requires Inv(s)
    ensures CanRecommit(Next(s, Expire)) <==> ExpiresTooSoon(s)
  {
    var t := Next(s, Expire);
    RunNothing(t);
    if !ExpiresTooSoon(s) {
      StaysBarred(s);
      forall actions | AllReliable(actions) ensures Run(t, actions).commits <= 1 {
        BarredHolds(t, actions);
      }
    } else {
      TooSoonCommits(s);
    }
  }

  lemma TooSoonCommits(s: State)
    requires Inv(s) && ExpiresTooSoon(s)
    ensures CanRecommit(Next(s, Expire))
  {
    hide Run;
    var t := Next(s, Expire);
    RunNothing(t);
    if s.commits == 1 {
      var w :| s.Has(w);
      var more := CommitsAgain(t, [], w);
    } else if v :| s.Has(v) && s.workers[v] == Claimed {
      RunStep(t, [], Commit(v));
      var more := CommitsAgain(t, [] + [Commit(v)], v);
    } else {
      var v, w :| v != w && s.Has(v) && s.Has(w) && s.workers[v] == Failed;
      LateRelease(t, v, w);
    }
  }

  lemma StaysBarred(s: State)
    requires Inv(s) && !ExpiresTooSoon(s)
    ensures var t := Next(s, Expire); Inv(t) || LoneFailed(t) || Deserted(t)
  {
    var t := Next(s, Expire);
    if s.commits == 1 {
      assert forall w :: w in s.workers ==> !s.Has(w);
    } else if v :| s.Has(v) && s.workers[v] == Failed {
      forall w | w in t.workers && t.Has(w) ensures w == v {
        assert s.Has(w) && s.Has(v);
      }
      assert Alone(t, v);
    }
  }

  /** A failed call deletes the claim that another one has taken in the meantime. */
  lemma LateRelease(t: State, v: Worker, w: Worker)
    requires v != w && t.Has(v) && t.Has(w) && t.workers[v] == Failed && !t.claim && t.commits == 0
    ensures CanRecommit(t)
  {
    hide Run;
    RunNothing(t);
    RunStep(t, [], Crash(w));
    var a1 := [] + [Crash(w)];
    RunStep(t, a1, Evict(t.home[w]));
    var a2 := a1 + [Evict(t.home[w])];
    RunStep(t, a2, Check(w));
    var a3 := a2 + [Check(w)];
    RunStep(t, a3, TryClaim(w));
    var a4 := a3 + [TryClaim(w)];
    assert Run(t, a4).workers == t.workers[w := Claimed];
    ClaimedTwice(t, a4, v, w);
  }

  lemma ClaimedTwice(t: State, actions: seq<Action>, v: Worker, w: Worker)
    requires AllReliable(actions) && v != w
    requires var u := Run(t, actions); u.Has(v) && u.Has(w) && u.workers[v] == Failed && u.workers[w] == Claimed
    ensures CanRecommit(t)
  {
    hide Run;
    RunStep(t, actions, Commit(w));
    var a1 := actions + [Commit(w)];
    RunStep(t, a1, Release(v));
    var a2 := a1 + [Release(v)];
    var more := CommitsAgain(t, a2, w);
  }

  /** Two calls on one instance, with the shared store out of reach, each commit the fill: the bound needs the claims. */
  lemma DegradedCommitsTwice() returns (s: State, actions: seq<Action>)
    ensures Init(s) && Run(s, actions).commits == 2
    ensures forall i :: 0 <= i < |actions| ==> actions[i] != Expire
  {
    hide Run, Next;
    s := State(map[0 := Idle, 1 := Idle], map[0 := 0, 1 := 0], false, {}, 0);
    RunNothing(s);
    var a3, t3 := UnclaimedCommit(s, [], s, 0);
    var a6, t6 := UnclaimedCommit(s, a3, t3, 1);
    actions := a6;
  }

  /** An idle worker that cannot reach the shared store, on an instance that does not know the fill, commits it. */
  lemma UnclaimedCommit(s: State, actions: seq<Action>, t: State, w: Worker) returns (more: seq<Action>, u: State)
    requires Run(s, actions) == t && t.Has(w) && t.workers[w] == Idle && t.home[w] !in t.known
    requires forall i :: 0 <= i < |actions| ==> actions[i] != Expire
    ensures Run(s, more) == u && u == t.At(w, Committed).(commits := t.commits + 1)
    ensures forall i :: 0 <= i < |more| ==> more[i] != Expire
  {
    hide Run;
    RunStep(s, actions, Check(w));
    var a1 := actions + [Check(w)];
    RunStep(s, a1, Degrade(w));
    var a2 := a1 + [Degrade(w)];
    RunStep(s, a2, Commit(w));
    more := a2 + [Commit(w)];
    u := Run(s, more);
    assert u.workers == t.workers[w := Committed];
  }

  // ----- what an instance remembers -----

  /** No call on the instance is past its cache. */
  ghost predicate Quiet(s: State, i: Instance) {
    forall w :: w in s.workers && s.Has(w) && s.home[w] == i ==> s.workers[w] == Idle
  }

  lemma QuietStays(s: State, a: Action, i: Instance)
    requires i in s.known && Quiet(s, i) && a != Evict(i)
    ensures i in Next(s, a).known && Quiet(Next(s, a), i)
  {
  }

  lemma {:induction false} RememberedStays(s: State, actions: seq<Action>, i: Instance)
    requires i in s.known && Quiet(s, i) && Evict(i) !in actions
    ensures i in Run(s, actions).known && Quiet(Run(s, actions), i)
    decreases |actions|
  {
    hide Next, Quiet;
    if actions != [] {
      var n := |actions| - 1;
      RememberedStays(s, actions[..n], i);
      QuietStays(Run(s, actions[..n]), actions[n], i);
    }
  }

  /**
   * Once the call that committed a fill has remembered it, with no other call under way on its instance, that instance
   * settles the fill no more until its cache forgets it, whatever becomes of the claim and of the shared store.
   */
  lemma SettledOncePerInstance(s: State, w: Worker, actions: seq<Action>, v: Worker)
    requires s.Has(w) && s.workers[w] == Committed
    requires forall u :: u in s.workers && s.Has(u) && s.home[u] == s.home[w] && u != w ==> s.workers[u] == Idle
    requires Evict(s.home[w]) !in actions
    requires var t := Run(Next(s, Remember(w)), actions); t.Has(v) && s.Has(v) && t.home[v] == s.home[w]
    ensures !Enabled(Run(Next(s, Remember(w)), actions), Commit(v))
  {
    hide Run;
    RememberedStays(Next(s, Remember(w)), actions, s.home[w]);
  }
}
