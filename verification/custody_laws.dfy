/**
 * Orders and withdrawals on the same wallet rows. What a spot row has locked is exactly the open reservations of its
 * user's orders and the amounts of the user's open withdrawals, so that no settlement of a withdrawal can fail, and each
 * withdrawal is on the chain once if it is recorded as sent and not at all otherwise; this holds along a run exactly
 * when no operation broke off between its two writes. The balances together with what was paid out change only by
 * deposits, fees and unrecorded payments, in every run.
 */
module CustodyLaws {
  import opened MatchingTypes
  import opened MapSums
  import opened WalletStores
  import opened FillSettlement
  import opened SettlementLaws
  import W = Withdrawals

  /** The whole custody state: rows, order reservations, withdrawals and the transfers on the chain. */
  datatype Bank = Bank(money: Money, txs: W.Txs, paid: multiset<Id>)
  {
    function Desk(): W.Desk { W.Desk(money.rows, txs, paid) }

    function With(d: W.Desk): Bank { Bank(money.(rows := d.rows), d.txs, d.paid) }
  }

  datatype Action =
    | Deposit(key: Key, amount: real)
    | Reserve(order: Id, user: User, v: Reservation)
    | Release(order: Id, user: User, unlocked: bool)
    | Settle(f: Fill)
    | Request(id: Id, t: W.Tx, saved: bool, released: bool)
    | Approve(id: Id)
    | Reject(id: Id, release: W.Release)
    | Send(id: Id, route: W.Route)
    | Advance(id: Id, signal: W.Signal)
    | Confirm(id: Id, deep: bool, saved: bool)

  function Deposited(rows: Rows, key: Key, amount: real): Rows {
    rows[key := RowOf(rows, key).(balance := RowOf(rows, key).balance + amount)]
  }

  function Step(b: Bank, a: Action, r: Rates): Bank {
    match a
    case Deposit(key, amount) => b.(money := b.money.(rows := Deposited(b.money.rows, key, amount)))
    case Reserve(order, user, v) =>
      (match ReserveOrder(b.money, order, user, v)
       case Some(m) => b.(money := m)
       case None => b)
    case Release(order, user, unlocked) => b.(money := ReleaseOrder(b.money, order, user, unlocked))
    case Settle(f) => b.(money := SettleFill(b.money, f, r).0)
    case Request(id, t, saved, released) => b.With(W.Request(b.Desk(), id, t, saved, released))
    case Approve(id) => b.With(W.Approve(b.Desk(), id).0)
    case Reject(id, release) => b.With(W.Reject(b.Desk(), id, release).0)
    case Send(id, route) => b.With(W.Send(b.Desk(), id, route))
    case Advance(id, signal) => b.With(W.Advance(b.Desk(), id, signal))
    case Confirm(id, deep, saved) => b.With(W.Confirm(b.Desk(), id, deep, saved))
  }

  /** What the callers see to: amounts are positive, ids are new, and every order is named with its own user. */
  ghost predicate Proper(b: Bank, a: Action, owners: Owners) {
    match a
    case Deposit(key, amount) => amount > 0.0
    case Reserve(order, user, v) =>
      order !in b.money.tracker && order in owners && owners[order] == user && v.remaining > 0.0
    case Release(order, user, _) => order in b.money.tracker ==> order in owners && owners[order] == user
    case Settle(f) => f.Valid() && NamesOwners(f, b.money.tracker, owners)
    case Request(id, t, _, _) => id !in b.txs && (t.status == W.Status.Pending || t.status == W.Reviewing)
    case _ => true
  }

  // ----- the accounts -----

  ghost predicate Positive(b: Bank, owners: Owners) {
    && (forall id :: id in b.money.tracker ==> id in owners && b.money.tracker[id].remaining > 0.0)
    && (forall id :: id in b.txs ==> b.txs[id].amount > 0.0)
  }

  /** What is locked is the open reservations and the open withdrawals, to the last unit. */
  ghost predicate Accounted(b: Bank, owners: Owners) {
    forall user, asset :: Foreign(b.money, owners, user, asset) == W.OpenSum(b.txs, user, asset)
  }

  ghost predicate Good(b: Bank, owners: Owners) {
    Solvent(b.money.rows) && Positive(b, owners) && Accounted(b, owners)
  }

  predicate RecordedAsSent(txs: W.Txs, id: Id) {
    id in txs && (txs[id].status == W.Broadcast || txs[id].status == W.Completed)
  }

  /** A withdrawal is on the chain once if it is recorded as sent, and not at all otherwise. */
  ghost predicate ChainAgrees(b: Bank) {
    forall id :: b.paid[id] == if RecordedAsSent(b.txs, id) then 1 else 0
  }

  // ----- operations that break off half way -----

  /** The operation left funds locked that stand for nothing, or took funds for a withdrawal still open. */
  predicate LosesFunds(b: Bank, a: Action) {
    match a
    case Release(order, _, unlocked) => order in b.money.tracker && !unlocked
    case Request(_, t, saved, released) =>
      t.amount > 0.0 && Reserved(b.money.rows, Key1(t.user, t.asset), t.amount).Some? && !saved && !released
    case Reject(id, release) => id in b.txs && W.Rejectable(b.txs[id].status) && release == W.Stranded
    case Advance(id, signal) =>
      id in b.txs && b.txs[id].status == W.ColdSigning && signal.SignFailed? && signal.saved && !signal.released
    case Confirm(id, deep, saved) => id in b.txs && b.txs[id].status == W.Broadcast && deep && !saved
    case _ => false
  }

  /** The operation put a transfer on the chain and did not record it. */
  predicate LosesSend(b: Bank, a: Action) {
    match a
    case Send(id, route) => id in b.txs && b.txs[id].status == W.Approved && route.Hot? && route.sent && !route.saved
    case Advance(id, signal) =>
      id in b.txs && b.txs[id].status == W.ColdSigned && signal.Signed? && signal.broadcast && !signal.saved
    case _ => false
  }

  lemma GoodIsBacked(b: Bank, owners: Owners)
    requires Good(b, owners)
    ensures Backed(b.money, owners)
  {
    forall user, asset ensures Foreign(b.money, owners, user, asset) >= 0.0 {
      W.OpenNonNegative(b.txs, user, asset);
    }
  }

  lemma HeldNonNegative(t: Tracker, owners: Owners, user: User, asset: Asset)
    requires forall id :: id in t ==> t[id].remaining > 0.0
    ensures Held(t, owners, user, asset) >= 0.0
  {
    SumNonNegative(map id | id in t && id in owners && owners[id] == user && t[id].asset == asset :: t[id].remaining);
  }

  /** An open withdrawal's amount is locked in its row, and available once unlocked. */
  lemma OpenIsLocked(b: Bank, owners: Owners, id: Id)
    requires Good(b, owners) && id in b.txs && b.txs[id].status.Open()
    ensures var t := b.txs[id]; var key := Key1(t.user, t.asset);
      key in b.money.rows && 0.0 < t.amount <= b.money.rows[key].locked <= b.money.rows[key].balance
  {
    var t := b.txs[id];
    W.OpenIsPart(b.txs, id);
    HeldNonNegative(b.money.tracker, owners, t.user, t.asset);
    assert Foreign(b.money, owners, t.user, t.asset) == W.OpenSum(b.txs, t.user, t.asset);
  }

  lemma UnlockIsExact(rows: Rows, t: W.Tx)
    requires Key1(t.user, t.asset) in rows && 0.0 < t.amount <= rows[Key1(t.user, t.asset)].locked
    ensures var key := Key1(t.user, t.asset);
      W.After(rows, W.UnlockOps(t)) == rows[key := rows[key].(locked := rows[key].locked - t.amount)]
  {
    W.OneOp(rows, W.UnlockOps(t)[0]);
  }

  lemma DebitIsExact(rows: Rows, t: W.Tx)
    requires Key1(t.user, t.asset) in rows
    requires 0.0 < t.amount <= rows[Key1(t.user, t.asset)].locked <= rows[Key1(t.user, t.asset)].balance
    ensures var key := Key1(t.user, t.asset);
      Settled(rows, W.DebitOps(t)) == Some(rows[key := Wallet(rows[key].balance - t.amount, rows[key].locked - t.amount)])
  {
    W.OneOp(rows, W.DebitOps(t)[0]);
  }

  /** Moving one row's lock by as much as one user's open withdrawals moved keeps the accounts. */
  lemma LockFollowsOpen(b: Bank, b': Bank, owners: Owners, user: User, asset: Asset, x: real)
    requires Accounted(b, owners) && b'.money.tracker == b.money.tracker
    requires forall k :: LockedOf(b'.money.rows, k) == LockedOf(b.money.rows, k) + When(k == Key1(user, asset), x)
    requires forall u, a :: W.OpenSum(b'.txs, u, a) == W.OpenSum(b.txs, u, a) + When(u == user && a == asset, x)
    ensures Accounted(b', owners)
  {
    hide W.OpenSum, Held;
    forall u, a ensures Foreign(b'.money, owners, u, a) == W.OpenSum(b'.txs, u, a) {
      assert Foreign(b.money, owners, u, a) == W.OpenSum(b.txs, u, a);
      assert LockedOf(b'.money.rows, Key1(u, a)) == LockedOf(b.money.rows, Key1(u, a)) + When(Key1(u, a) == Key1(user, asset), x);
    }
  }

  // ----- every withdrawal operation -----

  /** A change of status that stays open, or stays closed, moves nothing. */
  lemma StatusKeeps(b: Bank, owners: Owners, id: Id, s: W.Status)
    requires Good(b, owners) && id in b.txs && b.txs[id].status.Open() == s.Open()
    ensures Good(b.(txs := b.txs[id := b.txs[id].(status := s)]), owners)
  {
    hide W.OpenSum, Held, Foreign;
    var t := b.txs[id].(status := s);
    forall u, a ensures W.OpenSum(b.txs[id := t], u, a) == W.OpenSum(b.txs, u, a) {
      W.OpenUpdate(b.txs, id, t, u, a);
    }
  }

  function Unlocked(b: Bank, id: Id, s: W.Status): Bank
    requires id in b.txs
  {
    b.(money := b.money.(rows := W.After(b.money.rows, W.UnlockOps(b.txs[id]))), txs := b.txs[id := b.txs[id].(status := s)])
  }

  /** Closing a withdrawal and unlocking its amount once. */
  lemma UnlockKeeps(b: Bank, owners: Owners, id: Id, s: W.Status)
    requires Good(b, owners) && id in b.txs && b.txs[id].status.Open() && !s.Open()
    ensures Good(Unlocked(b, id, s), owners)
  {
    hide W.OpenSum, Held, W.After;
    var t := b.txs[id];
    OpenIsLocked(b, owners, id);
    UnlockIsExact(b.money.rows, t);
    var b' := Unlocked(b, id, s);
    forall u, a ensures W.OpenSum(b'.txs, u, a) == W.OpenSum(b.txs, u, a) + When(u == t.user && a == t.asset, -t.amount) {
      W.OpenUpdate(b.txs, id, t.(status := s), u, a);
    }
    LockFollowsOpen(b, b', owners, t.user, t.asset, -t.amount);
  }

  /** Completing a withdrawal never fails, and unlocks and debits its amount once. */
  lemma ConfirmKeeps(b: Bank, owners: Owners, id: Id)
    requires Good(b, owners) && id in b.txs && b.txs[id].status == W.Broadcast
    ensures var b' := b.With(W.Confirm(b.Desk(), id, true, true));
      && Good(b', owners) && b'.txs == b.txs[id := b.txs[id].(status := W.Completed)]
      && var key := Key1(b.txs[id].user, b.txs[id].asset);
        key in b.money.rows && b'.money.rows ==
          b.money.rows[key := Wallet(b.money.rows[key].balance - b.txs[id].amount, b.money.rows[key].locked - b.txs[id].amount)]
  {
    hide W.OpenSum, Held, Settled;
    var t := b.txs[id];
    OpenIsLocked(b, owners, id);
    DebitIsExact(b.money.rows, t);
    var b' := b.With(W.Confirm(b.Desk(), id, true, true));
    forall u, a ensures W.OpenSum(b'.txs, u, a) == W.OpenSum(b.txs, u, a) + When(u == t.user && a == t.asset, -t.amount) {
      W.OpenUpdate(b.txs, id, t.(status := W.Completed), u, a);
    }
    LockFollowsOpen(b, b', owners, t.user, t.asset, -t.amount);
  }

  lemma RequestKeeps(b: Bank, owners: Owners, id: Id, t: W.Tx, saved: bool, released: bool)
    requires Good(b, owners) && id !in b.txs && t.status.Open() && !LosesFunds(b, Request(id, t, saved, released))
    ensures Good(b.With(W.Request(b.Desk(), id, t, saved, released)), owners)
  {
    hide W.OpenSum, Held, W.After;
    var b' := b.With(W.Request(b.Desk(), id, t, saved, released));
    var key := Key1(t.user, t.asset);
    var reserved := Reserved(b.money.rows, key, t.amount);
    if t.amount > 0.0 && reserved.Some? {
      ReservedIsSolvent(b.money.rows, key, t.amount);
      if saved {
        forall u, a ensures W.OpenSum(b'.txs, u, a) == W.OpenSum(b.txs, u, a) + When(u == t.user && a == t.asset, t.amount) {
          W.OpenUpdate(b.txs, id, t, u, a);
        }
        LockFollowsOpen(b, b', owners, t.user, t.asset, t.amount);
      } else {
        UnlockIsExact(reserved.value, t);
        LockFollowsOpen(b, b', owners, t.user, t.asset, 0.0);
      }
    }
  }

  lemma PaidKeeps(b: Bank, owners: Owners, paid: multiset<Id>)
    requires Good(b, owners)
    ensures Good(b.(paid := paid), owners)
  {
    hide W.OpenSum, Foreign;
  }

  lemma WithdrawalKeeps(b: Bank, owners: Owners, a: Action, r: Rates)
    requires Good(b, owners) && Proper(b, a, owners) && !LosesFunds(b, a)
    requires !a.Deposit? && !a.Reserve? && !a.Release? && !a.Settle?
    ensures Good(Step(b, a, r), owners)
  {
    hide Good, W.After, W.Request;
    match a
    case Request(id, t, saved, released) => RequestKeeps(b, owners, id, t, saved, released);
    case Approve(id) =>
      if id in b.txs && W.Reviewable(b.txs[id].status) { StatusKeeps(b, owners, id, W.Approved); }
    case Reject(id, release) =>
      if id in b.txs && W.Rejectable(b.txs[id].status) { UnlockKeeps(b, owners, id, W.Status.Rejected); }
    case Send(id, route) => SendKeeps(b, owners, id, route);
    case Advance(id, signal) => AdvanceKeeps(b, owners, id, signal);
    case Confirm(id, deep, saved) =>
      if id in b.txs && b.txs[id].status == W.Broadcast && deep { ConfirmKeeps(b, owners, id); }
  }

  lemma SendKeeps(b: Bank, owners: Owners, id: Id, route: W.Route)
    requires Good(b, owners)
    ensures Good(b.With(W.Send(b.Desk(), id, route)), owners)
  {
    hide Good;
    if id in b.txs && b.txs[id].status == W.Approved {
      var s := if route.Hot? then W.Broadcast else W.ColdSigning;
      var paid := b.paid + multiset{id};
      StatusKeeps(b, owners, id, s);
      PaidKeeps(b, owners, paid);
      PaidKeeps(b.(txs := b.txs[id := b.txs[id].(status := s)]), owners, paid);
    }
  }

  lemma AdvanceKeeps(b: Bank, owners: Owners, id: Id, signal: W.Signal)
    requires Good(b, owners) && !LosesFunds(b, Advance(id, signal))
    ensures Good(b.With(W.Advance(b.Desk(), id, signal)), owners)
  {
    hide Good, W.After;
    if id in b.txs && b.txs[id].status == W.ColdSigning {
      UnlockKeeps(b, owners, id, W.Failed);
      StatusKeeps(b, owners, id, W.ColdSigned);
    } else if id in b.txs && b.txs[id].status == W.ColdSigned {
      var paid := b.paid + multiset{id};
      StatusKeeps(b, owners, id, W.Broadcast);
      PaidKeeps(b, owners, paid);
      PaidKeeps(b.(txs := b.txs[id := b.txs[id].(status := W.Broadcast)]), owners, paid);
    }
  }

  // ----- every other operation -----

  lemma DepositKeeps(b: Bank, owners: Owners, key: Key, amount: real)
    requires Good(b, owners) && amount > 0.0
    ensures Good(b.(money := b.money.(rows := Deposited(b.money.rows, key, amount))), owners)
  {
    hide W.OpenSum, Held;
    var b' := b.(money := b.money.(rows := Deposited(b.money.rows, key, amount)));
    LockFollowsOpen(b, b', owners, key.user, key.asset, 0.0);
  }

  /** An order operation that leaves foreign locks alone leaves the withdrawals' locks alone. */
  lemma OrdersKeep(b: Bank, m: Money, owners: Owners)
    requires Good(b, owners) && Solvent(m.rows) && Backed(m, owners) && SameForeign(b.money, m, owners)
    ensures Good(b.(money := m), owners)
  {
    hide W.OpenSum, Foreign;
  }

  lemma StepKeeps(b: Bank, owners: Owners, a: Action, r: Rates)
    requires Good(b, owners) && Proper(b, a, owners) && ValidRates(r) && !LosesFunds(b, a)
    ensures Good(Step(b, a, r), owners)
  {
    hide Accounted, SettleFill, ReleaseOrder, ReserveOrder, Backed, SameForeign, Deposited;
    GoodIsBacked(b, owners);
    match a
    case Deposit(key, amount) => DepositKeeps(b, owners, key, amount);
    case Reserve(order, user, v) =>
      if ReserveOrder(b.money, order, user, v).Some? {
        ReserveKeeps(b.money, owners, order, user, v);
        OrdersKeep(b, ReserveOrder(b.money, order, user, v).value, owners);
      }
    case Release(order, user, unlocked) =>
      ReleaseKeeps(b.money, owners, order, user);
      ReleaseOfNothing(b.money, order, user);
      OrdersKeep(b, ReleaseOrder(b.money, order, user, true), owners);
    case Settle(f) =>
      FillKeeps(b.money, owners, f, r);
      OrdersKeep(b, SettleFill(b.money, f, r).0, owners);
    case _ => WithdrawalKeeps(b, owners, a, r);
  }

  lemma ReleaseOfNothing(m: Money, order: Id, user: User)
    ensures order !in m.tracker ==> ReleaseOrder(m, order, user, false) == ReleaseOrder(m, order, user, true)
  {
  }

  // ----- and only then -----

  /** Locks and open amounts that part somewhere are no longer accounted for. */
  lemma Parted(b: Bank, b': Bank, owners: Owners, user: User, asset: Asset, x: real, y: real)
    requires Good(b, owners) && x != y
    requires Foreign(b'.money, owners, user, asset) == Foreign(b.money, owners, user, asset) + x
    requires W.OpenSum(b'.txs, user, asset) == W.OpenSum(b.txs, user, asset) + y
    ensures !Good(b', owners)
  {
    hide W.OpenSum, Foreign;
    assert Foreign(b.money, owners, user, asset) == W.OpenSum(b.txs, user, asset);
  }

  lemma RequestParts(b: Bank, owners: Owners, id: Id, t: W.Tx, r: Rates)
    requires Good(b, owners) && LosesFunds(b, Request(id, t, false, false))
    ensures !Good(Step(b, Request(id, t, false, false), r), owners)
  {
    hide W.OpenSum, Held;
    Parted(b, Step(b, Request(id, t, false, false), r), owners, t.user, t.asset, t.amount, 0.0);
  }

  /** A withdrawal closed with its amount still locked. */
  lemma ClosingParts(b: Bank, owners: Owners, id: Id, s: W.Status)
    requires Good(b, owners) && id in b.txs && b.txs[id].status.Open() && !s.Open()
    ensures !Good(b.(txs := b.txs[id := b.txs[id].(status := s)]), owners)
  {
    hide W.OpenSum, Held;
    var t := b.txs[id];
    W.OpenUpdate(b.txs, id, t.(status := s), t.user, t.asset);
    Parted(b, b.(txs := b.txs[id := t.(status := s)]), owners, t.user, t.asset, 0.0, -t.amount);
  }

  lemma ConfirmParts(b: Bank, owners: Owners, id: Id)
    requires Good(b, owners) && id in b.txs && b.txs[id].status == W.Broadcast
    ensures !Good(b.With(W.Confirm(b.Desk(), id, true, false)), owners)
  {
    hide W.OpenSum, Held, Settled;
    var t := b.txs[id];
    OpenIsLocked(b, owners, id);
    DebitIsExact(b.money.rows, t);
    Parted(b, b.With(W.Confirm(b.Desk(), id, true, false)), owners, t.user, t.asset, -t.amount, 0.0);
  }

  /** An operation keeps the accounts exactly when it did not break off with funds astray. */
  lemma StepKeepsIff(b: Bank, owners: Owners, a: Action, r: Rates)
    requires Good(b, owners) && Proper(b, a, owners) && ValidRates(r)
    ensures Good(Step(b, a, r), owners) <==> !LosesFunds(b, a)
  {
    hide Good, W.After, SettleFill, ReleaseOrder, ReserveOrder, Deposited, W.Confirm;
    if !LosesFunds(b, a) {
      StepKeeps(b, owners, a, r);
    } else {
      match a
      case Release(order, user, unlocked) => ReleaseParts(b, owners, order, user);
      case Request(id, t, saved, released) => RequestParts(b, owners, id, t, r);
      case Reject(id, release) => ClosingParts(b, owners, id, W.Status.Rejected);
      case Advance(id, signal) => ClosingParts(b, owners, id, W.Failed);
      case Confirm(id, deep, saved) => ConfirmParts(b, owners, id);
    }
  }

  lemma ReleaseParts(b: Bank, owners: Owners, order: Id, user: User)
    requires Good(b, owners) && order in b.money.tracker && order in owners && owners[order] == user
    ensures !Good(b.(money := ReleaseOrder(b.money, order, user, false)), owners)
  {
    hide W.OpenSum, Foreign, ReleaseOrder;
    FailedReleaseStrands(b.money, owners, order, user);
    var v := b.money.tracker[order];
    Parted(b, b.(money := ReleaseOrder(b.money, order, user, false)), owners, user, v.asset, v.remaining, 0.0);
  }

  /** The chain and the records agree after an operation exactly when it recorded what it sent. */
  lemma ChainAgreesIff(b: Bank, owners: Owners, a: Action, r: Rates)
    requires ChainAgrees(b) && Proper(b, a, owners)
    ensures ChainAgrees(Step(b, a, r)) <==> !LosesSend(b, a)
  {
    hide SettleFill, ReleaseOrder, ReserveOrder, Deposited, W.After, Settled, Reserved;
    var b' := Step(b, a, r);
    if LosesSend(b, a) {
      assert !RecordedAsSent(b'.txs, a.id) && b'.paid[a.id] == b.paid[a.id] + 1;
    } else {
      match a
      case Send(id, route) =>
      case Advance(id, signal) =>
      case _ =>
    }
  }

  // ----- every run -----

  function Run(b: Bank, actions: seq<Action>, r: Rates): Bank {
    if actions == [] then b else Step(Run(b, actions[..|actions| - 1], r), actions[|actions| - 1], r)
  }

  ghost predicate AllProper(b: Bank, actions: seq<Action>, owners: Owners, r: Rates) {
    actions == [] ||
      var earlier := actions[..|actions| - 1];
      AllProper(b, earlier, owners, r) && Proper(Run(b, earlier, r), actions[|actions| - 1], owners)
  }

  const NOTHING := Bank(Money(map[], map[]), map[], multiset{})

  lemma NothingIsGood(owners: Owners)
    ensures Good(NOTHING, owners)
  {
    forall user, asset ensures Foreign(NOTHING.money, owners, user, asset) == W.OpenSum(NOTHING.txs, user, asset) {
      NothingSummed(map[], map[], map[], owners, user, asset);
    }
  }

  lemma NothingSummed(t: Tracker, txs: W.Txs, rows: Rows, owners: Owners, user: User, asset: Asset)
    ensures t == map[] ==> Held(t, owners, user, asset) == 0.0
    ensures txs == map[] ==> W.OpenSum(txs, user, asset) == 0.0 && W.PaidSum(txs, asset) == 0.0
    ensures rows == map[] ==> Total(rows, OfAsset(asset)) == 0.0
  {
    var held := map id | id in t && id in owners && owners[id] == user && t[id].asset == asset :: t[id].remaining;
    var paid := map id | id in txs && txs[id].asset == asset && txs[id].status == W.Completed :: txs[id].amount;
    var total := map k | k in rows && OfAsset(asset)(k) :: rows[k].balance;
    assert t == map[] ==> held == map[];
    assert txs == map[] ==> W.OpenOnes(txs, user, asset) == map[] && paid == map[];
    assert rows == map[] ==> total == map[];
  }

  /** No operation of the run broke off half way. */
  ghost predicate NothingLost(actions: seq<Action>, r: Rates) {
    actions == [] ||
      var earlier := actions[..|actions| - 1];
      var b, a := Run(NOTHING, earlier, r), actions[|actions| - 1];
      NothingLost(earlier, r) && !LosesFunds(b, a) && !LosesSend(b, a)
  }

  ghost predicate InOrder(b: Bank, owners: Owners) {
    Good(b, owners) && ChainAgrees(b)
  }

  /** The books were in order after every operation so far. */
  ghost predicate AlwaysInOrder(actions: seq<Action>, owners: Owners, r: Rates) {
    InOrder(Run(NOTHING, actions, r), owners)
    && (actions == [] || AlwaysInOrder(actions[..|actions| - 1], owners, r))
  }

  /** Along a run, in whatever order the operations come, the books are in order exactly when nothing was lost. */
  lemma {:induction false} RunIsAccountedIff(actions: seq<Action>, owners: Owners, r: Rates)
    requires AllProper(NOTHING, actions, owners, r) && ValidRates(r)
    ensures AlwaysInOrder(actions, owners, r) <==> NothingLost(actions, r)
    decreases |actions|
  {
    hide Good, ChainAgrees, Step, Proper, LosesFunds, LosesSend;
    if actions == [] {
      NothingIsGood(owners);
      assert ChainAgrees(NOTHING) by { NothingIsPaid(); }
    } else {
      var earlier := actions[..|actions| - 1];
      RunIsAccountedIff(earlier, owners, r);
      if NothingLost(earlier, r) {
        StepKeepsIff(Run(NOTHING, earlier, r), owners, actions[|actions| - 1], r);
        ChainAgreesIff(Run(NOTHING, earlier, r), owners, actions[|actions| - 1], r);
      }
    }
  }

  lemma NothingIsPaid()
    ensures ChainAgrees(NOTHING)
  {
  }

  /** While nothing is lost, confirming a broadcast withdrawal takes its funds, which are there. */
  lemma ConfirmNeverFails(actions: seq<Action>, owners: Owners, r: Rates, id: Id)
    requires AllProper(NOTHING, actions, owners, r) && ValidRates(r) && NothingLost(actions, r)
    requires var b := Run(NOTHING, actions, r); id in b.txs && b.txs[id].status == W.Broadcast
    ensures Step(Run(NOTHING, actions, r), Confirm(id, true, true), r).txs[id].status == W.Completed
  {
    hide Good, Run;
    RunIsAccountedIff(actions, owners, r);
    ConfirmKeeps(Run(NOTHING, actions, r), owners, id);
  }

  /** Every transfer of the run was recorded, whatever else was lost. */
  ghost predicate SendsRecorded(actions: seq<Action>, r: Rates) {
    actions == [] ||
      var earlier := actions[..|actions| - 1];
      SendsRecorded(earlier, r) && !LosesSend(Run(NOTHING, earlier, r), actions[|actions| - 1])
  }

  lemma {:induction false} RecordedSendsAgree(actions: seq<Action>, owners: Owners, r: Rates)
    requires AllProper(NOTHING, actions, owners, r) && SendsRecorded(actions, r)
    ensures ChainAgrees(Run(NOTHING, actions, r))
    decreases |actions|
  {
    hide ChainAgrees, Step, Proper, LosesSend;
    if actions == [] {
      NothingIsPaid();
    } else {
      var earlier := actions[..|actions| - 1];
      RecordedSendsAgree(earlier, owners, r);
      ChainAgreesIff(Run(NOTHING, earlier, r), owners, actions[|actions| - 1], r);
    }
  }

  /** While every transfer is recorded, no withdrawal is paid on the chain more than once, funds stranded or not. */
  lemma PaidAtMostOnce(actions: seq<Action>, owners: Owners, r: Rates, id: Id)
    requires AllProper(NOTHING, actions, owners, r) && SendsRecorded(actions, r)
    ensures Run(NOTHING, actions, r).paid[id] <= 1
  {
    hide Run;
    RecordedSendsAgree(actions, owners, r);
  }

  /** Some next operation puts the withdrawal on the chain once more. */
  ghost predicate CanBePaidNext(b: Bank, id: Id, r: Rates) {
    exists a :: Step(b, a, r).paid[id] > b.paid[id]
  }

  /** Only an approved or signed withdrawal is ever put on the chain, by a send or by the cold signer. */
  lemma OnlySendsPay(b: Bank, a: Action, r: Rates, id: Id)
    requires Step(b, a, r).paid[id] > b.paid[id]
    ensures (a.Send? || a.Advance?) && a.id == id && id in b.txs && !RecordedAsSent(b.txs, id)
    ensures LosesSend(b, a) ==> Step(b, a, r).txs == b.txs
    ensures a.Send? ==> b.txs[id].status == W.Approved
    ensures a.Advance? ==> b.txs[id].status == W.ColdSigned
  {
    hide SettleFill, ReleaseOrder, ReserveOrder, Deposited, W.After, Settled, Reserved;
  }

  /** After a transfer was sent it can be sent again exactly when its record was lost. */
  lemma PaidAgainIff(b: Bank, a: Action, owners: Owners, r: Rates, id: Id)
    requires ChainAgrees(b) && Proper(b, a, owners) && Step(b, a, r).paid[id] > b.paid[id]
    ensures CanBePaidNext(Step(b, a, r), id, r) <==> LosesSend(b, a)
  {
    hide Step, Proper;
    var b' := Step(b, a, r);
    OnlySendsPay(b, a, r, id);
    ChainAgreesIff(b, owners, a, r);
    if LosesSend(b, a) {
      ResendPays(b', id, r);
    } else {
      forall again ensures Step(b', again, r).paid[id] <= b'.paid[id] {
        if Step(b', again, r).paid[id] > b'.paid[id] { OnlySendsPay(b', again, r, id); }
      }
    }
  }

  lemma ResendPays(b: Bank, id: Id, r: Rates)
    requires id in b.txs && (b.txs[id].status == W.Approved || b.txs[id].status == W.ColdSigned)
    ensures CanBePaidNext(b, id, r)
  {
    var again := if b.txs[id].status == W.Approved then Send(id, W.Hot(true, true)) else Advance(id, W.Signed(true, true));
    assert Step(b, again, r).paid[id] == b.paid[id] + 1;
  }

  // ----- what a withdrawal goes through -----

  /** A withdrawal that is decided stays so, and its terms never change. */
  lemma ClosedStays(b: Bank, owners: Owners, a: Action, r: Rates, id: Id)
    requires Proper(b, a, owners) && id in b.txs
    ensures var b' := Step(b, a, r);
      && id in b'.txs && b'.txs[id].(status := b.txs[id].status) == b.txs[id]
      && (!b.txs[id].status.Open() ==> b'.txs[id] == b.txs[id])
  {
    hide SettleFill, ReleaseOrder, ReserveOrder, Deposited, W.After, Settled, Reserved, NamesOwners;
    match a
    case Advance(i, signal) =>
    case Send(i, route) =>
    case _ =>
  }

  // ----- conservation -----

  /** Everything of an asset in the custody's books: balances, and what completed withdrawals paid out. */
  ghost function Books(b: Bank, asset: Asset): real {
    Total(b.money.rows, OfAsset(asset)) + W.PaidSum(b.txs, asset)
  }

  /** What an action brings in from outside, less the fees it takes out and what it pays out without a record. */
  ghost function Inflow(b: Bank, a: Action, r: Rates, asset: Asset): real {
    match a
    case Deposit(key, amount) => When(key.asset == asset, amount)
    case Settle(f) => When(f.quote == asset && SettleFill(b.money, f, r).1, -(f.Notional() * r.taker + f.Notional() * r.maker))
    case Confirm(id, deep, saved) => -Unrecorded(b, id, deep, saved, asset)
    case _ => 0.0
  }

  /** What a confirmation debits whose completion is not recorded. */
  ghost function Unrecorded(b: Bank, id: Id, deep: bool, saved: bool, asset: Asset): real {
    if id in b.txs && b.txs[id].status == W.Broadcast && deep && !saved
       && Settled(b.money.rows, W.DebitOps(b.txs[id])).Some? && b.txs[id].asset == asset
    then b.txs[id].amount else 0.0
  }

  lemma ReservedTotal(rows: Rows, key: Key, amount: real, asset: Asset)
    requires Reserved(rows, key, amount).Some?
    ensures Total(Reserved(rows, key, amount).value, OfAsset(asset)) == Total(rows, OfAsset(asset))
  {
    hide Total;
    TotalUpdate(rows, key, Reserved(rows, key, amount).value[key], OfAsset(asset));
  }

  lemma UnlockTotal(rows: Rows, t: W.Tx, asset: Asset)
    ensures Total(W.After(rows, W.UnlockOps(t)), OfAsset(asset)) == Total(rows, OfAsset(asset))
  {
    hide Total, Settled;
    var ops := W.UnlockOps(t);
    W.UnlockNeverFails(rows, t);
    SettledTotal(rows, ops, OfAsset(asset));
    DeltasOne(ops[0], OfAsset(asset));
  }

  lemma ReleaseTotal(m: Money, order: Id, user: User, unlocked: bool, asset: Asset)
    ensures Total(ReleaseOrder(m, order, user, unlocked).rows, OfAsset(asset)) == Total(m.rows, OfAsset(asset))
  {
    hide Total, Settled;
    if order in m.tracker && m.tracker[order].remaining > 0.0 && unlocked {
      var op := Op(Key(user, m.tracker[order].asset, Spot), m.tracker[order].remaining, 0.0);
      if Settled(m.rows, [op]).Some? {
        SettledTotal(m.rows, [op], OfAsset(asset));
        DeltasOne(op, OfAsset(asset));
      }
    }
  }

  lemma FillBooks(b: Bank, f: Fill, r: Rates, asset: Asset)
    ensures Books(Step(b, Settle(f), r), asset) == Books(b, asset) + Inflow(b, Settle(f), r, asset)
  {
    hide Total, W.PaidSum;
    if SettleFill(b.money, f, r).1 {
      FillMoves(b.money, f, r, OfAsset(asset));
    }
  }

  lemma DepositBooks(b: Bank, key: Key, amount: real, r: Rates, asset: Asset)
    ensures Books(Step(b, Deposit(key, amount), r), asset) == Books(b, asset) + When(key.asset == asset, amount)
  {
    hide Total, W.PaidSum;
    TotalUpdate(b.money.rows, key, Deposited(b.money.rows, key, amount)[key], OfAsset(asset));
  }

  lemma ConfirmBooks(b: Bank, id: Id, deep: bool, saved: bool, r: Rates, asset: Asset)
    ensures Books(Step(b, Confirm(id, deep, saved), r), asset) == Books(b, asset) + Inflow(b, Confirm(id, deep, saved), r, asset)
  {
    hide Total, W.PaidSum, Settled;
    if id in b.txs && b.txs[id].status == W.Broadcast && deep && Settled(b.money.rows, W.DebitOps(b.txs[id])).Some? {
      var t := b.txs[id];
      SettledTotal(b.money.rows, W.DebitOps(t), OfAsset(asset));
      DeltasOne(W.DebitOps(t)[0], OfAsset(asset));
      W.PaidUpdate(b.txs, id, t.(status := W.Completed), asset);
    }
  }

  lemma StepBooks(b: Bank, owners: Owners, a: Action, r: Rates, asset: Asset)
    requires Proper(b, a, owners)
    ensures Books(Step(b, a, r), asset) == Books(b, asset) + Inflow(b, a, r, asset)
  {
    hide Total, W.PaidSum, SettleFill, ReleaseOrder, Settled, W.After, Reserved, Deposited;
    match a
    case Deposit(key, amount) => DepositBooks(b, key, amount, r, asset);
    case Settle(f) => FillBooks(b, f, r, asset);
    case Reserve(order, user, v) =>
      if Reserved(b.money.rows, Key(user, v.asset, Spot), v.remaining).Some? {
        ReservedTotal(b.money.rows, Key(user, v.asset, Spot), v.remaining, asset);
      }
    case Release(order, user, unlocked) => ReleaseTotal(b.money, order, user, unlocked, asset);
    case Request(id, t, saved, released) =>
      if Reserved(b.money.rows, Key(t.user, t.asset, Spot), t.amount).Some? {
        ReservedTotal(b.money.rows, Key(t.user, t.asset, Spot), t.amount, asset);
        UnlockTotal(Reserved(b.money.rows, Key(t.user, t.asset, Spot), t.amount).value, t, asset);
        W.PaidUpdate(b.txs, id, t, asset);
      }
      UnlockTotal(b.money.rows, t, asset);
    case Approve(id) => if id in b.txs { StatusPaid(b.txs, id, asset); }
    case Reject(id, release) => if id in b.txs { StatusPaid(b.txs, id, asset); UnlockTotal(b.money.rows, b.txs[id], asset); }
    case Send(id, route) => if id in b.txs { StatusPaid(b.txs, id, asset); }
    case Advance(id, signal) => if id in b.txs { StatusPaid(b.txs, id, asset); UnlockTotal(b.money.rows, b.txs[id], asset); }
    case Confirm(id, deep, saved) => ConfirmBooks(b, id, deep, saved, r, asset);
  }

  lemma StatusPaid(txs: W.Txs, id: Id, asset: Asset)
    requires id in txs
    ensures forall s: W.Status :: txs[id].status != W.Completed && s != W.Completed ==>
      W.PaidSum(txs[id := txs[id].(status := s)], asset) == W.PaidSum(txs, asset)
  {
    forall s: W.Status | txs[id].status != W.Completed && s != W.Completed
      ensures W.PaidSum(txs[id := txs[id].(status := s)], asset) == W.PaidSum(txs, asset)
    {
      W.PaidUpdate(txs, id, txs[id].(status := s), asset);
    }
  }

  ghost function Inflows(actions: seq<Action>, r: Rates, asset: Asset): real {
    if actions == [] then 0.0
    else
      var earlier := actions[..|actions| - 1];
      Inflows(earlier, r, asset) + Inflow(Run(NOTHING, earlier, r), actions[|actions| - 1], r, asset)
  }

  /** Over any run, whatever breaks off, balances and paid withdrawals are the deposits less fees and unrecorded payments. */
  lemma {:induction false} BooksBalance(actions: seq<Action>, owners: Owners, r: Rates, asset: Asset)
    requires AllProper(NOTHING, actions, owners, r)
    ensures Books(Run(NOTHING, actions, r), asset) == Inflows(actions, r, asset)
    decreases |actions|
  {
    hide Step, Proper, Inflow;
    if actions == [] {
      NothingSummed(map[], map[], map[], owners, "", asset);
    } else {
      var earlier := actions[..|actions| - 1];
      BooksBalance(earlier, owners, r, asset);
      StepBooks(Run(NOTHING, earlier, r), owners, actions[|actions| - 1], r, asset);
    }
  }
}
