/**
 * One withdrawal under concurrent review. An approval or a rejection reads the row, then flips its status in one
 * statement guarded by the status; a rejection then releases the funds, and writes the status it read back when the
 * release fails, if that write goes through. Any number of reviewers interleave at these store calls, and the
 * broadcaster may carry an approved withdrawal on in between.
 */
module ReviewRace {
  import opened Withdrawals

  type Reviewer = nat

  datatype Phase =
    | Away
    | Approving            // read a reviewable row
    | Rejecting(seen: Status)
    | Releasing(seen: Status)

  datatype State = State(
    status: Status,
    reviewers: map<Reviewer, Phase>,
    approvals: nat,
    rejections: int,     // those not rolled back
    unlocks: nat,
    sent: bool)
  {
    function At(w: Reviewer, p: Phase): State { this.(reviewers := reviewers[w := p]) }
  }

  datatype Action =
    | LookApprove(w: Reviewer)
    | FlipApprove(w: Reviewer)
    | LookReject(w: Reviewer)
    | FlipReject(w: Reviewer)
    | Release(w: Reviewer)
    | ReleaseFails(w: Reviewer)
    | RollbackFails(w: Reviewer)
    | Carry(cold: bool)

  predicate Enabled(s: State, a: Action) {
    match a
    case LookApprove(w) => w in s.reviewers && s.reviewers[w] == Away
    case FlipApprove(w) => w in s.reviewers && s.reviewers[w] == Approving
    case LookReject(w) => w in s.reviewers && s.reviewers[w] == Away
    case FlipReject(w) => w in s.reviewers && s.reviewers[w].Rejecting?
    case Release(w) => w in s.reviewers && s.reviewers[w].Releasing?
    case ReleaseFails(w) => w in s.reviewers && s.reviewers[w].Releasing?
    case RollbackFails(w) => w in s.reviewers && s.reviewers[w].Releasing?
    case Carry(_) => s.status == Approved
  }

  /** An action that is not enabled has no effect. */
  function Next(s: State, a: Action): State {
    if !Enabled(s, a) then s
    else
      match a
      case LookApprove(w) => if Reviewable(s.status) then s.At(w, Approving) else s
      case FlipApprove(w) =>
        if Reviewable(s.status) then s.At(w, Away).(status := Approved, approvals := s.approvals + 1) else s.At(w, Away)
      case LookReject(w) => if Rejectable(s.status) then s.At(w, Rejecting(s.status)) else s
      case FlipReject(w) =>
        if Rejectable(s.status) then s.At(w, Releasing(s.reviewers[w].seen)).(status := Rejected, rejections := s.rejections + 1)
        else s.At(w, Away)
      case Release(w) => s.At(w, Away).(unlocks := s.unlocks + 1)
      case ReleaseFails(w) => s.At(w, Away).(status := s.reviewers[w].seen, rejections := s.rejections - 1)
      case RollbackFails(w) => s.At(w, Away)       // rejected, with the funds still locked
      case Carry(cold) => s.(status := if cold then ColdSigning else Broadcast, sent := true)
  }

  function Run(s: State, actions: seq<Action>): State {
    if actions == [] then s else Next(Run(s, actions[..|actions| - 1]), actions[|actions| - 1])
  }

  predicate Init(s: State) {
    && Reviewable(s.status) && s.approvals == 0 && s.rejections == 0 && s.unlocks == 0 && !s.sent
    && forall w :: w in s.reviewers ==> s.reviewers[w] == Away
  }

  /** A rollback to a status from before an approval that meanwhile took effect. */
  predicate Stale(s: State, a: Action) {
    a.ReleaseFails? && Enabled(s, a) && Reviewable(s.reviewers[a.w].seen) && s.approvals > 0
  }

  ghost predicate NoneStale(s: State, actions: seq<Action>) {
    forall i :: 0 <= i < |actions| ==> !Stale(Run(s, actions[..i]), actions[i])
  }

  ghost predicate Inv(s: State) {
    && s.approvals <= 1 && 0 <= s.rejections <= 1 && s.unlocks <= s.rejections
    && (Reviewable(s.status) ==> s.approvals == 0)
    && (s.rejections == 1 <==> s.status == Rejected)
    && (s.status == Approved ==> s.approvals == 1)
    && (s.sent ==> s.approvals == 1)
    && (!s.sent ==> s.approvals + s.rejections <= 1 && (Reviewable(s.status) || s.status == Approved || s.status == Rejected))
    && (s.status == ColdSigning || s.status == Broadcast ==> s.sent)
    && s.status != ColdSigned && s.status != Completed && s.status != Failed
    && (forall w :: w in s.reviewers ==> Sighted(s, s.reviewers[w]))
    && (forall w :: w in s.reviewers && s.reviewers[w].Releasing? ==> s.rejections == 1 && s.unlocks == 0)
    && (forall v, w :: v in s.reviewers && w in s.reviewers && s.reviewers[v].Releasing? && s.reviewers[w].Releasing? ==> v == w)
  }

  /** What a rejecting reviewer saw: a reviewable row, or one queued for signing, which was sent on by then. */
  predicate Sighted(s: State, p: Phase) {
    p.Rejecting? || p.Releasing? ==> Reviewable(p.seen) || (p.seen == ColdSigning && s.sent)
  }

  lemma NextKeeps(s: State, a: Action)
    requires Inv(s) && !Stale(s, a)
    ensures Inv(Next(s, a))
  {
  }

  lemma NoneStalePrefix(s: State, actions: seq<Action>, n: nat)
    requires NoneStale(s, actions) && n <= |actions|
    ensures NoneStale(s, actions[..n])
  {
    forall i | 0 <= i < n ensures !Stale(Run(s, actions[..n][..i]), actions[..n][i]) {
      assert actions[..n][..i] == actions[..i];
    }
  }

  lemma {:induction false} InvHolds(s: State, actions: seq<Action>)
    requires Inv(s) && NoneStale(s, actions)
    ensures Inv(Run(s, actions))
    decreases |actions|
  {
    if actions != [] {
      var n := |actions| - 1;
      NoneStalePrefix(s, actions, n);
      InvHolds(s, actions[..n]);
      NextKeeps(Run(s, actions[..n]), actions[n]);
    }
  }

  /**
   * Unless a rollback is stale, at most one approval ever takes effect, at most one rejection stands, and the funds are
   * released at most once and only for a rejection; and as long as the withdrawal was not carried on, it is one decision
   * or the other.
   */
  lemma OneDecision(s: State, actions: seq<Action>)
    requires Init(s) && NoneStale(s, actions)
    ensures var t := Run(s, actions);
      && t.approvals <= 1 && t.rejections <= 1 && t.unlocks <= t.rejections
      && (!t.sent ==> t.approvals + t.rejections <= 1)
      && Inv(t)
  {
    InvHolds(s, actions);
  }

  /** A reviewer whom nobody disturbs approves exactly a withdrawal that is pending or under review. */
  lemma UndisturbedApproval(s: State, w: Reviewer)
    requires w in s.reviewers && s.reviewers[w] == Away
    ensures var t := Run(s, [LookApprove(w), FlipApprove(w)]);
      if s.status == Pending || s.status == Reviewing
      then t == s.(status := Approved, approvals := s.approvals + 1) else t == s
  {
    hide Run;
    RunNothing(s);
    RunStep(s, [], LookApprove(w));
    RunStep(s, [LookApprove(w)], FlipApprove(w));
    assert [] + [LookApprove(w)] == [LookApprove(w)];
    assert [LookApprove(w)] + [FlipApprove(w)] == [LookApprove(w), FlipApprove(w)];
    assert Run(s, [LookApprove(w), FlipApprove(w)]).reviewers == s.reviewers;
  }

  /** And rejects exactly one of those or one queued for signing, releasing its funds once. */
  lemma UndisturbedRejection(s: State, w: Reviewer)
    requires w in s.reviewers && s.reviewers[w] == Away
    ensures var t := Run(s, [LookReject(w), FlipReject(w), Release(w)]);
      if s.status == Pending || s.status == Reviewing || s.status == ColdSigning
      then t == s.(status := Rejected, rejections := s.rejections + 1, unlocks := s.unlocks + 1) else t == s
  {
    hide Run;
    RunNothing(s);
    RunStep(s, [], LookReject(w));
    RunStep(s, [LookReject(w)], FlipReject(w));
    RunStep(s, [LookReject(w), FlipReject(w)], Release(w));
    assert [] + [LookReject(w)] == [LookReject(w)];
    assert [LookReject(w)] + [FlipReject(w)] == [LookReject(w), FlipReject(w)];
    assert [LookReject(w), FlipReject(w)] + [Release(w)] == [LookReject(w), FlipReject(w), Release(w)];
    assert Run(s, [LookReject(w), FlipReject(w), Release(w)]).reviewers == s.reviewers;
  }

  /** A continuation without stale rollbacks approves the withdrawal a second time. */
  ghost predicate CanReapprove(s: State) {
    exists actions :: NoneStale(s, actions) && Run(s, actions).approvals > 1
  }

  /** A failed release opens the way to a second approval exactly when its rollback is stale. */
  lemma ReapprovalIff(s: State, w: Reviewer)
    requires Inv(s) && Enabled(s, ReleaseFails(w))
    ensures CanReapprove(Next(s, ReleaseFails(w))) <==> Stale(s, ReleaseFails(w))
  {
    var t := Next(s, ReleaseFails(w));
    if Stale(s, ReleaseFails(w)) {
      RunNothing(t);
      RunStep(t, [], LookApprove(w));
      var a1 := [] + [LookApprove(w)];
      RunStep(t, a1, FlipApprove(w));
      var a2 := a1 + [FlipApprove(w)];
      assert NoneStale(t, a2);
    } else {
      NextKeeps(s, ReleaseFails(w));
      forall actions | NoneStale(t, actions) ensures Run(t, actions).approvals <= 1 {
        InvHolds(t, actions);
      }
    }
  }

  lemma RunNothing(s: State)
    ensures Run(s, []) == s
  {
  }

  lemma RunStep(s: State, actions: seq<Action>, a: Action)
    ensures Run(s, actions + [a]) == Next(Run(s, actions), a)
  {
    assert (actions + [a])[..|actions|] == actions;
  }

  /**
   * A rejection whose release fails writes back the status it read at its start. When the withdrawal was approved and
   * queued for signing meanwhile, that reopens the review, and the withdrawal can be approved a second time.
   */
  lemma StaleRollbackReopens() returns (s: State, actions: seq<Action>)
    ensures Init(s) && Run(s, actions).approvals == 2
  {
    hide Run;
    var a3, t := ApprovedMeanwhile();
    s := State(Pending, map[0 := Away, 1 := Away], 0, 0, 0, false);
    RunStep(s, a3, Carry(true));
    var a4 := a3 + [Carry(true)];
    RunStep(s, a4, FlipReject(0));
    var a5 := a4 + [FlipReject(0)];
    actions := ReapprovedAfter(s, a5, 0, 1);
  }

  /** One reviewer is about to reject; another one approves. */
  lemma ApprovedMeanwhile() returns (actions: seq<Action>, t: State)
    ensures t == Run(State(Pending, map[0 := Away, 1 := Away], 0, 0, 0, false), actions)
    ensures t.status == Approved && t.approvals == 1 && t.reviewers == map[0 := Rejecting(Pending), 1 := Away]
  {
    hide Run;
    var s := State(Pending, map[0 := Away, 1 := Away], 0, 0, 0, false);
    RunNothing(s);
    RunStep(s, [], LookReject(0));
    var a1 := [] + [LookReject(0)];
    RunStep(s, a1, LookApprove(1));
    var a2 := a1 + [LookApprove(1)];
    RunStep(s, a2, FlipApprove(1));
    actions := a2 + [FlipApprove(1)];
    t := Run(s, actions);
    assert t.reviewers == map[0 := Rejecting(Pending), 1 := Away];
  }

  lemma ReapprovedAfter(s: State, actions: seq<Action>, w: Reviewer, v: Reviewer) returns (more: seq<Action>)
    requires var t := Run(s, actions);
      v != w && Stale(t, ReleaseFails(w)) && v in t.reviewers && t.reviewers[v] == Away
    ensures Run(s, more).approvals == Run(s, actions).approvals + 1
  {
    hide Run;
    RunStep(s, actions, ReleaseFails(w));
    var a1 := actions + [ReleaseFails(w)];
    RunStep(s, a1, LookApprove(v));
    var a2 := a1 + [LookApprove(v)];
    RunStep(s, a2, FlipApprove(v));
    more := a2 + [FlipApprove(v)];
  }
}
