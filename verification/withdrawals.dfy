/**
 * The withdrawal lifecycle over the wallet rows: funds are locked on request and either unlocked once, when the
 * withdrawal is rejected or fails, or unlocked and debited once, when it completes. Each operation is atomic; what the
 * chain, the cold signer and the address checks answer comes in as a parameter, and so does every answer of the store
 * after which an operation has been done in part. A store call that fails before anything was done is no operation.
 */
module Withdrawals {
  import opened MatchingTypes
  import opened MapSums
  import opened WalletStores

  datatype Status = Pending | Reviewing | Approved | Broadcast | ColdSigning | ColdSigned | Completed | Rejected | Failed
  {
    /** Still to be decided or carried out: the amount is locked. */
    predicate Open() {
      this != Completed && this != Status.Rejected && this != Failed
    }
  }

  datatype Tx = Tx(user: User, asset: Asset, amount: real, status: Status)

  type Txs = map<Id, Tx>

  /** The wallet rows, the withdrawal transactions, and the transfers put on the chain for them. */
  datatype Desk = Desk(rows: Rows, txs: Txs, paid: multiset<Id>)
  {
    function At(id: Id, s: Status): Desk
      requires id in txs
    {
      this.(txs := txs[id := txs[id].(status := s)])
    }
  }

  datatype ReviewResult = Applied | NotFound | AlreadyApproved | AlreadyRejected | NotReviewable | ReleaseFailed

  /** How the release after a rejection went: when it fails, the status is written back, if that goes through. */
  datatype Release = Released | RolledBack | Stranded

  /** How a broadcast is attempted: from the hot wallet, or queued to the cold signer; and what of it worked. */
  datatype Route = Hot(sent: bool, saved: bool) | Cold(queued: bool, saved: bool)

  /** From which amount on a withdrawal of an asset is signed offline, if a signer is attached. */
  datatype ColdPolicy = HotOnly | WithSigner(thresholds: map<Asset, real>, fallback: Option<real>)

  const DEFAULT_COLD_THRESHOLD: real := 10_000.0

  function ThresholdFor(p: ColdPolicy, asset: Asset): real
    requires p.WithSigner?
  {
    if asset in p.thresholds then p.thresholds[asset]
    else if p.fallback.Some? then p.fallback.value
    else DEFAULT_COLD_THRESHOLD
  }

  predicate RequiresCold(p: ColdPolicy, t: Tx) {
    p.WithSigner? && t.amount >= ThresholdFor(p, t.asset)
  }

  /** Where a withdrawal goes, and how that went. */
  function RouteFor(p: ColdPolicy, t: Tx, sent: bool, saved: bool): Route {
    if RequiresCold(p, t) then Cold(sent, saved) else Hot(sent, saved)
  }

  /** What the cold signer reports, and what came of it. */
  datatype Signal = NotYet | SignFailed(saved: bool, released: bool) | Signed(broadcast: bool, saved: bool)

  function UnlockOps(t: Tx): seq<Op> {
    [Op(Key(t.user, t.asset, Spot), t.amount, 0.0)]
  }

  function DebitOps(t: Tx): seq<Op> {
    [Op(Key(t.user, t.asset, Spot), t.amount, -t.amount)]
  }

  /** The rows after a batch, or as they were when it fails. */
  function After(rows: Rows, ops: seq<Op>): Rows {
    match Settled(rows, ops)
    case Some(r) => r
    case None => rows
  }

  // ----- the operations -----

  /** Large amounts wait for review. A reservation whose record cannot be saved is released again, if that works. */
  function Request(d: Desk, id: Id, t: Tx, saved: bool, released: bool): Desk {
    match Reserved(d.rows, Key(t.user, t.asset, Spot), t.amount)
    case None => d
    case Some(rows) =>
      if t.amount <= 0.0 then d
      else if saved then d.(rows := rows, txs := d.txs[id := t])
      else d.(rows := if released then After(rows, UnlockOps(t)) else rows)
  }

  predicate Reviewable(s: Status) {
    s == Status.Pending || s == Reviewing
  }

  predicate Rejectable(s: Status) {
    Reviewable(s) || s == ColdSigning
  }

  function Approve(d: Desk, id: Id): (Desk, ReviewResult) {
    if id !in d.txs then (d, ReviewResult.NotFound)
    else if Reviewable(d.txs[id].status) then (d.At(id, Approved), Applied)
    else if d.txs[id].status == Status.Rejected then (d, AlreadyRejected)
    else if d.txs[id].status == Failed then (d, NotReviewable)
    else (d, AlreadyApproved)
  }

  /** A rejection whose release failed can be retried if the status could be written back. */
  function Reject(d: Desk, id: Id, release: Release): (Desk, ReviewResult) {
    if id !in d.txs then (d, ReviewResult.NotFound)
    else if d.txs[id].status == Status.Rejected then (d, AlreadyRejected)
    else if !Rejectable(d.txs[id].status) then (d, NotReviewable)
    else
      match release
      case Released => (d.At(id, Status.Rejected).(rows := After(d.rows, UnlockOps(d.txs[id]))), Applied)
      case RolledBack => (d, ReleaseFailed)
      case Stranded => (d.At(id, Status.Rejected), ReleaseFailed)
  }

  function Paid(d: Desk, id: Id): Desk {
    d.(paid := d.paid + multiset{id})
  }

  /** The transfer is on the chain before the record says so. */
  function Send(d: Desk, id: Id, route: Route): Desk {
    if id !in d.txs || d.txs[id].status != Approved then d
    else
      match route
      case Hot(sent, saved) => if !sent then d else if saved then Paid(d, id).At(id, Broadcast) else Paid(d, id)
      case Cold(queued, saved) => if queued && saved then d.At(id, ColdSigning) else d
  }

  function Advance(d: Desk, id: Id, signal: Signal): Desk {
    if id !in d.txs then d
    else if d.txs[id].status == ColdSigning then
      match signal
      case NotYet => d
      case SignFailed(saved, released) =>
        if !saved then d
        else if released then d.At(id, Failed).(rows := After(d.rows, UnlockOps(d.txs[id])))
        else d.At(id, Failed)
      case Signed(_, saved) => if saved then d.At(id, ColdSigned) else d
    else if d.txs[id].status == ColdSigned && signal.Signed? && signal.broadcast then
      if signal.saved then Paid(d, id).At(id, Broadcast) else Paid(d, id)
    else d
  }

  /** With enough confirmations the amount leaves the wallet; a settlement that fails leaves everything for a retry. */
  function Confirm(d: Desk, id: Id, deep: bool, saved: bool): Desk {
    if id !in d.txs || d.txs[id].status != Broadcast || !deep then d
    else
      match Settled(d.rows, DebitOps(d.txs[id]))
      case None => d
      case Some(rows) => if saved then d.At(id, Completed).(rows := rows) else d.(rows := rows)
  }

  class WithdrawalService {
    const store: PGWalletStore
    const reviewThreshold: real
    const coldPolicy: ColdPolicy
    var txs: Txs
    ghost var paid: multiset<Id>

    constructor (store: PGWalletStore, reviewThreshold: real, coldPolicy: ColdPolicy)
      ensures this.store == store && this.reviewThreshold == reviewThreshold && this.coldPolicy == coldPolicy
      ensures txs == map[] && paid == multiset{}
    {
      this.store := store;
      this.reviewThreshold := reviewThreshold;
      this.coldPolicy := coldPolicy;
      txs, paid := map[], multiset{};
    }

    ghost function State(): Desk
      reads this, store
    {
      Desk(store.rows, txs, paid)
    }

    /** A transaction starts pending, or under review when it reaches the threshold. */
    function Started(user: User, asset: Asset, amount: real): Tx {
      Tx(user, asset, amount, if reviewThreshold > 0.0 && amount >= reviewThreshold then Reviewing else Status.Pending)
    }

    method RequestWithdrawal(id: Id, user: User, asset: Asset, amount: real, saved: bool, released: bool) returns (ok: bool)
      modifies this`txs, store`rows
      ensures State() == Request(old(State()), id, Started(user, asset, amount), saved, released)
      ensures ok <==> amount > 0.0 && Available(old(store.rows), Key(user, asset, Spot)) >= amount && saved
      ensures ok ==> id in txs && txs[id].amount == amount && txs[id].user == user && txs[id].asset == asset
      ensures ok ==> txs[id].status == if reviewThreshold > 0.0 && amount >= reviewThreshold then Reviewing else Status.Pending
    {
      hide Settled;
      if amount <= 0.0 {
        return false;
      }
      var w := store.ReserveForAccount(Key(user, asset, Spot), amount);
      if !w.Ok? {
        return false;
      }
      var status := Status.Pending;
      if reviewThreshold > 0.0 && amount >= reviewThreshold {
        status := Reviewing;
      }
      if !saved {
        if released {
          var _ := store.Settle([Op(Key(user, asset, Spot), amount, 0.0)]);
        }
        return false;
      }
      txs := txs[id := Tx(user, asset, amount, status)];
      ok := true;
    }

    method ApproveWithdrawal(id: Id) returns (r: ReviewResult)
      modifies this`txs
      ensures (State(), r) == Approve(old(State()), id)
      ensures r == ReviewResult.NotFound <==> id !in old(txs)
      ensures r == Applied <==> id in old(txs) && old(txs)[id].status in {Status.Pending, Reviewing}
      ensures r == AlreadyRejected <==> id in old(txs) && old(txs)[id].status == Status.Rejected
      ensures r == NotReviewable <==> id in old(txs) && old(txs)[id].status == Failed
    {
      if id !in txs {
        return ReviewResult.NotFound;
      }
      match txs[id].status
      case Pending | Reviewing =>
        txs := txs[id := txs[id].(status := Approved)];
        r := Applied;
      case Approved | Broadcast | Completed | ColdSigning | ColdSigned => r := AlreadyApproved;
      case Rejected => r := AlreadyRejected;
      case Failed => r := NotReviewable;
    }

    method RejectWithdrawal(id: Id, release: Release) returns (r: ReviewResult)
      modifies this`txs, store`rows
      ensures (State(), r) == Reject(old(State()), id, release)
      ensures r == ReviewResult.NotFound <==> id !in old(txs)
      ensures r == AlreadyRejected <==> id in old(txs) && old(txs)[id].status == Status.Rejected
      ensures r == Applied || r == ReleaseFailed <==>
        id in old(txs) && old(txs)[id].status in {Status.Pending, Reviewing, ColdSigning}
      ensures r == Applied ==> release.Released?
    {
      hide Settled;
      if id !in txs {
        return ReviewResult.NotFound;
      }
      var tx := txs[id];
      if tx.status == Status.Rejected {
        return AlreadyRejected;
      }
      if tx.status != Status.Pending && tx.status != Reviewing && tx.status != ColdSigning {
        return NotReviewable;
      }
      txs := txs[id := tx.(status := Status.Rejected)];
      UnlockNeverFails(store.rows, tx);
      var ok := false;
      if release.Released? {
        ok := store.Settle([Op(Key(tx.user, tx.asset, Spot), tx.amount, 0.0)]);
      }
      if !ok {
        if release.RolledBack? {
          txs := txs[id := tx];
          assert txs == old(txs);
        }
        return ReleaseFailed;
      }
      r := Applied;
    }

    /** Small amounts are sent from the hot wallet, others queued to the cold signer. */
    method BroadcastWithdrawal(id: Id, sent: bool, saved: bool) returns (ok: bool)
      modifies this`txs, this`paid
      ensures State() ==
        if id in old(txs) then Send(old(State()), id, RouteFor(coldPolicy, old(txs)[id], sent, saved)) else old(State())
      ensures ok <==> id in old(txs) && old(txs)[id].status == Approved && sent && saved
    {
      if id !in txs || txs[id].status != Approved {
        return false;
      }
      if !sent {
        return false;
      }
      var cold := RequiresCold(coldPolicy, txs[id]);
      if !cold {
        paid := paid + multiset{id};
      }
      if !saved {
        return false;
      }
      txs := txs[id := txs[id].(status := if cold then ColdSigning else Broadcast)];
      ok := true;
    }

    method AdvanceColdWithdrawal(id: Id, signal: Signal)
      modifies this`txs, this`paid, store`rows
      ensures State() == Advance(old(State()), id, signal)
    {
      hide Settled;
      if id !in txs {
        return;
      }
      var tx := txs[id];
      if tx.status == ColdSigning {
        match signal
        case NotYet =>
        case SignFailed(saved, released) =>
          if saved {
            txs := txs[id := tx.(status := Failed)];
            UnlockNeverFails(store.rows, tx);
            if released {
              var _ := store.Settle([Op(Key(tx.user, tx.asset, Spot), tx.amount, 0.0)]);
            }
          }
        case Signed(_, saved) => if saved { txs := txs[id := tx.(status := ColdSigned)]; }
      } else if tx.status == ColdSigned && signal.Signed? && signal.broadcast {
        paid := paid + multiset{id};
        if signal.saved { txs := txs[id := tx.(status := Broadcast)]; }
      }
    }

    method ConfirmWithdrawal(id: Id, deep: bool, saved: bool) returns (ok: bool)
      modifies this`txs, store`rows
      ensures State() == Confirm(old(State()), id, deep, saved)
    {
      hide Settled;
      if id !in txs || txs[id].status != Broadcast {
        return false;
      }
      if !deep {
        return true;
      }
      var tx := txs[id];
      ok := store.Settle([Op(Key(tx.user, tx.asset, Spot), tx.amount, -tx.amount)]);
      if !ok {
        return;
      }
      if saved {
        txs := txs[id := tx.(status := Completed)];
      }
      ok := saved;
    }
  }

  lemma OneOp(rows: Rows, op: Op)
    ensures Settled(rows, [op]) == ApplyOp(rows, op)
  {
    assert [op][..0] == [];
  }

  /** A batch that only unlocks goes through. */
  lemma UnlockNeverFails(rows: Rows, t: Tx)
    ensures Settled(rows, UnlockOps(t)).Some?
  {
    OneOp(rows, UnlockOps(t)[0]);
  }

  // ----- what is locked and what was paid out -----

  /** The amounts of one user's undecided and unfinished withdrawals in one asset. */
  ghost function OpenSum(txs: Txs, user: User, asset: Asset): real {
    Sum(OpenOnes(txs, user, asset))
  }

  ghost function OpenOnes(txs: Txs, user: User, asset: Asset): map<Id, real> {
    map id | id in txs && txs[id].user == user && txs[id].asset == asset && txs[id].status.Open() :: txs[id].amount
  }

  /** The amounts of the completed withdrawals in one asset. */
  ghost function PaidSum(txs: Txs, asset: Asset): real {
    Sum(map id | id in txs && txs[id].asset == asset && txs[id].status == Completed :: txs[id].amount)
  }

  function OpenOf(txs: Txs, id: Id, user: User, asset: Asset): real {
    if id in txs && txs[id].user == user && txs[id].asset == asset && txs[id].status.Open() then txs[id].amount else 0.0
  }

  lemma OpenUpdate(txs: Txs, id: Id, t: Tx, user: User, asset: Asset)
    ensures OpenSum(txs[id := t], user, asset) ==
      OpenSum(txs, user, asset) + OpenOf(txs[id := t], id, user, asset) - OpenOf(txs, id, user, asset)
  {
    hide OpenOnes, Sum;
    var was := OpenOnes(txs, user, asset);
    OpenOnesUpdate(txs, id, t, user, asset);
    if t.user == user && t.asset == asset && t.status.Open() {
      SumUpdate(was, id, t.amount);
    } else if id in was {
      SumWithout(was, id);
    } else {
      assert was - {id} == was;
    }
  }

  lemma OpenOnesUpdate(txs: Txs, id: Id, t: Tx, user: User, asset: Asset)
    ensures var was := OpenOnes(txs, user, asset);
      && OpenOnes(txs[id := t], user, asset) ==
           (if t.user == user && t.asset == asset && t.status.Open() then was[id := t.amount] else was - {id})
      && OpenOf(txs, id, user, asset) == if id in was then was[id] else 0.0
  {
  }

  lemma PaidUpdate(txs: Txs, id: Id, t: Tx, asset: Asset)
    requires id in txs ==> txs[id].status != Completed
    ensures PaidSum(txs[id := t], asset) == PaidSum(txs, asset) + When(t.asset == asset && t.status == Completed, t.amount)
  {
    var was := map i | i in txs && txs[i].asset == asset && txs[i].status == Completed :: txs[i].amount;
    var txs' := txs[id := t];
    var then' := map i | i in txs' && txs'[i].asset == asset && txs'[i].status == Completed :: txs'[i].amount;
    if t.asset == asset && t.status == Completed {
      assert then' == was[id := t.amount];
      SumUpdate(was, id, t.amount);
    } else {
      assert then' == was;
    }
  }

  lemma OpenIsPart(txs: Txs, id: Id)
    requires (forall i :: i in txs ==> txs[i].amount > 0.0) && id in txs && txs[id].status.Open()
    ensures txs[id].amount <= OpenSum(txs, txs[id].user, txs[id].asset)
  {
    var user, asset := txs[id].user, txs[id].asset;
    SumBounds(OpenOnes(txs, user, asset), id);
  }

  lemma OpenNonNegative(txs: Txs, user: User, asset: Asset)
    requires forall i :: i in txs ==> txs[i].amount > 0.0
    ensures OpenSum(txs, user, asset) >= 0.0
  {
    SumNonNegative(OpenOnes(txs, user, asset));
  }

  // ----- where records and funds part -----

  /**
   * Completion settles first and records the status second. When the record is lost, the withdrawal looks unfinished;
   * confirming it again debits its amount a second time, out of funds that were never part of it.
   */
  lemma LostStatusDebitsTwice() returns (d: Desk, id: Id)
    ensures id in d.txs && d.txs[id].status == Broadcast
    ensures var key := Key(d.txs[id].user, d.txs[id].asset, Spot);
      var once := Confirm(d, id, true, false);
      var twice := Confirm(once, id, true, true);
      && key in d.rows && key in twice.rows
      && twice.txs[id].status == Completed && twice.rows[key].balance == d.rows[key].balance - 2.0 * d.txs[id].amount
  {
    id := "wd";
    var t := Tx("user", "BTC", 10.0, Broadcast);
    var key := Key("user", "BTC", Spot);
    d := Desk(map[key := Wallet(20.0, 10.0)], map[id := t], multiset{id});
    var op := Op(key, 10.0, -10.0);
    assert DebitOps(t) == [op];
    OneOp(d.rows, op);
    var rows := ApplyOp(d.rows, op).value;
    assert rows[key] == Wallet(10.0, 0.0);
    OneOp(rows, op);
    assert ApplyOp(rows, op).value[key] == Wallet(0.0, 0.0);
  }
}
