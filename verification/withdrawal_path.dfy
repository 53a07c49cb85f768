/**
 * The way of a withdrawal from request to completion: which operation takes it from which status to which, and what has
 * to lie behind one that is completed.
 */
module WithdrawalPath {
  import opened MatchingTypes
  import opened MapSums
  import opened WalletStores
  import opened FillSettlement
  import opened SettlementLaws
  import opened CustodyLaws
  import W = Withdrawals

  /** A status that changes was changed so, and a status from which an operation can take a withdrawal is taken so. */
  predicate Moves(a: Action, id: Id, from: W.Status, to: W.Status) {
    || (a == Approve(id) && (from == W.Status.Pending || from == W.Reviewing) && to == W.Approved)
    || (a.Reject? && a.id == id && a.release != W.RolledBack
        && (from == W.Status.Pending || from == W.Reviewing || from == W.ColdSigning) && to == W.Status.Rejected)
    || (a == Send(id, W.Hot(true, true)) && from == W.Approved && to == W.Broadcast)
    || (a == Send(id, W.Cold(true, true)) && from == W.Approved && to == W.ColdSigning)
    || (a.Advance? && a.id == id && a.signal.SignFailed? && a.signal.saved && from == W.ColdSigning && to == W.Failed)
    || (a.Advance? && a.id == id && a.signal.Signed? && a.signal.saved && from == W.ColdSigning && to == W.ColdSigned)
    || (a == Advance(id, W.Signed(true, true)) && from == W.ColdSigned && to == W.Broadcast)
    || (a == Confirm(id, true, true) && from == W.Broadcast && to == W.Completed)
  }

  /** A withdrawal changes its status by these moves and no others. */
  lemma ChangesByMove(b: Bank, a: Action, owners: Owners, r: Rates, id: Id)
    requires Proper(b, a, owners) && id in b.txs
    ensures var b' := Step(b, a, r);
      id in b'.txs && (b'.txs[id] == b.txs[id] || Moves(a, id, b.txs[id].status, b'.txs[id].status))
  {
    hide SettleFill, ReleaseOrder, ReserveOrder, Deposited, W.After, Settled, Reserved, NamesOwners;
    match a
    case Approve(i) =>
    case Reject(i, release) =>
    case Send(i, route) =>
    case Advance(i, signal) =>
    case Confirm(i, deep, saved) =>
    case _ =>
  }

  /** While the accounts are in order, every one of these moves is made. */
  lemma MoveIsMade(b: Bank, a: Action, owners: Owners, r: Rates, id: Id, to: W.Status)
    requires Good(b, owners) && id in b.txs && Moves(a, id, b.txs[id].status, to)
    ensures Step(b, a, r).txs == b.txs[id := b.txs[id].(status := to)]
  {
    hide Good, SettleFill, ReleaseOrder, ReserveOrder, Deposited, W.After, Settled, Reserved, NamesOwners;
    if a.Confirm? { ConfirmKeeps(b, owners, id); }
  }

  /** A withdrawal appears by a request, pending or under review, with its amount locked. */
  lemma AppearsByRequest(b: Bank, a: Action, owners: Owners, r: Rates, id: Id)
    requires Proper(b, a, owners) && id !in b.txs && id in Step(b, a, r).txs
    ensures a.Request? && a.id == id && a.saved && Step(b, a, r).txs[id] == a.t
    ensures a.t.status == W.Status.Pending || a.t.status == W.Reviewing
    ensures a.t.amount > 0.0 && Available(b.money.rows, Key1(a.t.user, a.t.asset)) >= a.t.amount
  {
    hide SettleFill, ReleaseOrder, ReserveOrder, Deposited, W.After, Settled, NamesOwners;
    match a
    case Request(i, t, saved, released) =>
    case _ =>
  }

  /** In good order, an operation takes a withdrawal to another status exactly when that is one of the moves. */
  lemma StatusMovesIff(b: Bank, a: Action, owners: Owners, r: Rates, id: Id, to: W.Status)
    requires Good(b, owners) && Proper(b, a, owners) && id in b.txs && to != b.txs[id].status
    ensures id in Step(b, a, r).txs && (Step(b, a, r).txs[id].status == to <==> Moves(a, id, b.txs[id].status, to))
  {
    hide Good, Step, Proper, Moves;
    ChangesByMove(b, a, owners, r, id);
    if Moves(a, id, b.txs[id].status, to) { MoveIsMade(b, a, owners, r, id, to); }
  }

  // ----- what lies behind a status -----

  predicate StatusIs(b: Bank, id: Id, s: W.Status) {
    id in b.txs && b.txs[id].status == s
  }

  /** The i-th operation approved the withdrawal, which was pending or under review. */
  predicate ApprovedAt(actions: seq<Action>, i: nat, id: Id, r: Rates) {
    && i < |actions| && actions[i] == Approve(id)
    && var b := Run(NOTHING, actions[..i], r); StatusIs(b, id, W.Status.Pending) || StatusIs(b, id, W.Reviewing)
  }

  /** The j-th operation put it on the chain and recorded that. */
  predicate SentAt(actions: seq<Action>, j: nat, id: Id, r: Rates) {
    && j < |actions|
    && var b, b' := Run(NOTHING, actions[..j], r), Run(NOTHING, actions[..j + 1], r);
      b'.paid[id] == b.paid[id] + 1 && StatusIs(b', id, W.Broadcast)
      && (actions[j] == Send(id, W.Hot(true, true)) || actions[j] == Advance(id, W.Signed(true, true)))
  }

  /** The m-th operation saw enough confirmations for it. */
  predicate ConfirmedAt(actions: seq<Action>, m: nat, id: Id, r: Rates) {
    m < |actions| && actions[m] == Confirm(id, true, true) && StatusIs(Run(NOTHING, actions[..m], r), id, W.Broadcast)
  }

  predicate PastReview(s: W.Status) {
    s != W.Status.Pending && s != W.Reviewing && s != W.Status.Rejected
  }

  /** What lies behind a withdrawal: an approval, then a transfer, then a confirmation, as far as it has come. */
  ghost predicate Behind(actions: seq<Action>, id: Id, r: Rates, i: nat, j: nat, m: nat) {
    var b := Run(NOTHING, actions, r);
    && id in b.txs
    && (PastReview(b.txs[id].status) ==> ApprovedAt(actions, i, id, r))
    && (RecordedAsSent(b.txs, id) ==> i < j && SentAt(actions, j, id, r))
    && (b.txs[id].status == W.Completed ==> j < m && ConfirmedAt(actions, m, id, r))
  }

  lemma StillAt(actions: seq<Action>, a: Action, k: nat, id: Id, r: Rates)
    ensures ApprovedAt(actions, k, id, r) ==> ApprovedAt(actions + [a], k, id, r)
    ensures SentAt(actions, k, id, r) ==> SentAt(actions + [a], k, id, r)
    ensures ConfirmedAt(actions, k, id, r) ==> ConfirmedAt(actions + [a], k, id, r)
  {
    hide Run;
    if k < |actions| {
      assert (actions + [a])[..k] == actions[..k] && (actions + [a])[..k + 1] == actions[..k + 1];
    }
  }

  lemma RunOneMore(actions: seq<Action>, a: Action, r: Rates)
    ensures Run(NOTHING, actions + [a], r) == Step(Run(NOTHING, actions, r), a, r)
  {
    hide Step;
    assert (actions + [a])[..|actions|] == actions;
  }

  /** The move that the last operation made. */
  lemma MovedAt(actions: seq<Action>, a: Action, id: Id, r: Rates, from: W.Status, to: W.Status)
    requires Moves(a, id, from, to) && StatusIs(Run(NOTHING, actions, r), id, from)
    requires StatusIs(Run(NOTHING, actions + [a], r), id, to)
    ensures to == W.Approved ==> ApprovedAt(actions + [a], |actions|, id, r)
    ensures to == W.Broadcast ==> SentAt(actions + [a], |actions|, id, r)
    ensures to == W.Completed ==> ConfirmedAt(actions + [a], |actions|, id, r)
    ensures PastReview(to) && to != W.Approved ==> PastReview(from)
    ensures to == W.Completed ==> from == W.Broadcast
  {
    hide Run;
    RunOneMore(actions, a, r);
    assert (actions + [a])[..|actions|] == actions && (actions + [a])[..|actions| + 1] == actions + [a];
    if to == W.Broadcast { SendPays(Run(NOTHING, actions, r), a, id, r, from); }
  }

  lemma SendPays(b: Bank, a: Action, id: Id, r: Rates, from: W.Status)
    requires Moves(a, id, from, W.Broadcast) && StatusIs(b, id, from)
    ensures Step(b, a, r).paid[id] == b.paid[id] + 1
  {
  }

  lemma {:induction false} WayBehind(actions: seq<Action>, owners: Owners, r: Rates, id: Id) returns (i: nat, j: nat, m: nat)
    requires AllProper(NOTHING, actions, owners, r) && id in Run(NOTHING, actions, r).txs
    ensures Behind(actions, id, r, i, j, m)
    decreases |actions|
  {
    hide Step, Proper, Moves, ApprovedAt, SentAt, ConfirmedAt;
    var n := |actions| - 1;
    var before, a := actions[..n], actions[n];
    assert actions == before + [a];
    var b := Run(NOTHING, before, r);
    if id in b.txs {
      i, j, m := WayBehind(before, owners, r, id);
      StillAt(before, a, i, id, r);
      StillAt(before, a, j, id, r);
      StillAt(before, a, m, id, r);
      ChangesByMove(b, a, owners, r, id);
      var to := Step(b, a, r).txs[id].status;
      if Step(b, a, r).txs[id] != b.txs[id] {
        MovedAt(before, a, id, r, b.txs[id].status, to);
        Later(before, id, r, i, j);
        if to == W.Approved { i := n; } else if to == W.Broadcast { j := n; } else if to == W.Completed { m := n; }
      }
    } else {
      i, j, m := 0, 0, 0;
      AppearsByRequest(b, a, owners, r, id);
    }
  }

  lemma Later(actions: seq<Action>, id: Id, r: Rates, i: nat, j: nat)
    ensures ApprovedAt(actions, i, id, r) ==> i < |actions|
    ensures SentAt(actions, j, id, r) ==> j < |actions|
  {
  }

  /** A completed withdrawal was approved, then sent, and then confirmed deep enough, in this order. */
  lemma CompletedWay(actions: seq<Action>, owners: Owners, r: Rates, id: Id) returns (i: nat, j: nat, m: nat)
    requires AllProper(NOTHING, actions, owners, r) && StatusIs(Run(NOTHING, actions, r), id, W.Completed)
    ensures i < j < m && ApprovedAt(actions, i, id, r) && SentAt(actions, j, id, r) && ConfirmedAt(actions, m, id, r)
  {
    hide Run, ApprovedAt, SentAt, ConfirmedAt;
    i, j, m := WayBehind(actions, owners, r, id);
  }

  /** Whatever is on the chain was approved before. */
  lemma {:induction false} PaidWasApproved(actions: seq<Action>, owners: Owners, r: Rates, id: Id) returns (i: nat)
    requires AllProper(NOTHING, actions, owners, r) && Run(NOTHING, actions, r).paid[id] > 0
    ensures ApprovedAt(actions, i, id, r)
    decreases |actions|
  {
    hide Step, Proper, ApprovedAt, SentAt, ConfirmedAt;
    var n := |actions| - 1;
    var before, a := actions[..n], actions[n];
    assert actions == before + [a];
    var b := Run(NOTHING, before, r);
    if b.paid[id] > 0 {
      i := PaidWasApproved(before, owners, r, id);
    } else {
      OnlySendsPay(b, a, r, id);
      var j, m;
      i, j, m := WayBehind(before, owners, r, id);
    }
    StillAt(before, a, i, id, r);
  }

  // ----- hot and cold -----

  /** Every approved withdrawal is sent on the way its amount requires. */
  predicate Routed(b: Bank, a: Action, policy: W.ColdPolicy) {
    a.Send? && a.id in b.txs ==> (a.route.Cold? <==> W.RequiresCold(policy, b.txs[a.id]))
  }

  predicate AllRouted(actions: seq<Action>, policy: W.ColdPolicy, r: Rates) {
    actions == [] ||
      var n := |actions| - 1;
      AllRouted(actions[..n], policy, r) && Routed(Run(NOTHING, actions[..n], r), actions[n], policy)
  }

  lemma RoutedByPolicy(b: Bank, id: Id, policy: W.ColdPolicy, sent: bool, saved: bool)
    requires id in b.txs
    ensures Routed(b, Send(id, W.RouteFor(policy, b.txs[id], sent, saved)), policy)
  {
  }

  lemma {:induction false} ColdOnesAreLarge(actions: seq<Action>, owners: Owners, r: Rates, policy: W.ColdPolicy, id: Id)
    requires AllProper(NOTHING, actions, owners, r) && AllRouted(actions, policy, r)
    requires var b := Run(NOTHING, actions, r); StatusIs(b, id, W.ColdSigning) || StatusIs(b, id, W.ColdSigned)
    ensures W.RequiresCold(policy, Run(NOTHING, actions, r).txs[id])
    decreases |actions|
  {
    hide Step, Proper, W.RequiresCold;
    var n := |actions| - 1;
    var b, a := Run(NOTHING, actions[..n], r), actions[n];
    if id in b.txs {
      ChangesByMove(b, a, owners, r, id);
      ClosedStays(b, owners, a, r, id);
      SameSize(policy, b.txs[id], Step(b, a, r).txs[id]);
      if b.txs[id].status == W.ColdSigning || b.txs[id].status == W.ColdSigned {
        ColdOnesAreLarge(actions[..n], owners, r, policy, id);
      }
    } else {
      AppearsByRequest(b, a, owners, r, id);
    }
  }

  lemma SameSize(policy: W.ColdPolicy, t: W.Tx, t': W.Tx)
    requires t'.asset == t.asset && t'.amount == t.amount
    ensures W.RequiresCold(policy, t') <==> W.RequiresCold(policy, t)
  {
  }

  /**
   * A withdrawal is put on the chain by the cold signer exactly when a signer is attached and the amount is at least
   * the threshold of its asset; every other one by the hot wallet.
   */
  lemma LargeOnesAreSignedOffline(actions: seq<Action>, a: Action, owners: Owners, r: Rates, policy: W.ColdPolicy, id: Id)
    requires AllProper(NOTHING, actions, owners, r) && AllRouted(actions, policy, r)
    requires Routed(Run(NOTHING, actions, r), a, policy)
    requires var b := Run(NOTHING, actions, r); Step(b, a, r).paid[id] > b.paid[id]
    ensures var b := Run(NOTHING, actions, r);
      && id in b.txs
      && var t := b.txs[id];
         (a.Advance? && a.signal.Signed? && a.signal.broadcast) <==>
           policy.WithSigner? && t.amount >= (if t.asset in policy.thresholds then policy.thresholds[t.asset]
                                             else if policy.fallback.Some? then policy.fallback.value else 10_000.0)
  {
    hide Run, Step;
    var b := Run(NOTHING, actions, r);
    OnlySendsPay(b, a, r, id);
    if a.Advance? {
      ColdOnesAreLarge(actions, owners, r, policy, id);
      SignerPays(b, a, r, id);
    } else {
      HotPays(b, a, r, id);
    }
  }

  lemma SignerPays(b: Bank, a: Action, r: Rates, id: Id)
    requires a.Advance? && Step(b, a, r).paid[id] > b.paid[id]
    ensures a.signal.Signed? && a.signal.broadcast
  {
    hide W.After;
  }

  lemma HotPays(b: Bank, a: Action, r: Rates, id: Id)
    requires a.Send? && Step(b, a, r).paid[id] > b.paid[id]
    ensures a.route.Hot?
  {
  }
}
