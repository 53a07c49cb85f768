/** The wallet rows and their guarded updates, each one database transaction. Amounts are exact. */
module WalletStores {
  import opened MatchingTypes
  import opened MapSums

  type Asset = string

  datatype Account = Spot | Futures | Funding

  datatype Key = Key(user: User, asset: Asset, account: Account)

  datatype Wallet = Wallet(balance: real, locked: real)

  type Rows = map<Key, Wallet>

  /** One mutation of a settlement: an unlock, then a signed change of balance; zero stands for nil. */
  datatype Op = Op(key: Key, unlock: real, delta: real)

  datatype Result<+T> = Ok(value: T) | InsufficientBalance | NegativeAmount | DailyLimitExceeded

  // ----- what the updates do to the rows -----

  /** The row of a wallet; one that was never used is empty. */
  function RowOf(rows: Rows, key: Key): Wallet {
    if key in rows then rows[key] else Wallet(0.0, 0.0)
  }

  function Reserved(rows: Rows, key: Key, amount: real): Option<Rows> {
    var w := RowOf(rows, key);
    if w.balance - w.locked >= amount then Some(rows[key := w.(locked := w.locked + amount)]) else None
  }

  /** The unlock is skipped, without an error, when less than that is locked. */
  function Unlocked(w: Wallet, unlock: real): Wallet {
    if unlock != 0.0 && w.locked >= unlock then w.(locked := w.locked - unlock) else w
  }

  /** A debit needs that much available; a credit always goes through. */
  function ApplyOp(rows: Rows, op: Op): Option<Rows> {
    var w := Unlocked(RowOf(rows, op.key), op.unlock);
    if op.delta < 0.0 && w.balance - w.locked < -op.delta then None
    else Some(rows[op.key := w.(balance := w.balance + op.delta)])
  }

  function Settled(rows: Rows, ops: seq<Op>): Option<Rows> {
    if ops == [] then Some(rows)
    else
      match Settled(rows, ops[..|ops| - 1])
      case None => None
      case Some(before) => ApplyOp(before, ops[|ops| - 1])
  }

  type Day = string

  datatype Meter = Meter(user: User, asset: Asset, day: Day)

  function Usage(used: map<Meter, real>, m: Meter): real {
    if m in used then used[m] else 0.0
  }

  class PGWalletStore {
    var rows: Rows
    var used: map<Meter, real>

    constructor ()
      ensures rows == map[] && used == map[]
    {
      rows := map[];
      used := map[];
    }

    method ReserveForAccount(key: Key, amount: real) returns (r: Result<Wallet>)
      modifies this`rows
      ensures r.Ok? <==> amount > 0.0 && Reserved(old(rows), key, amount).Some?
      ensures r.Ok? ==> Reserved(old(rows), key, amount) == Some(rows) && r.value == rows[key]
      ensures !r.Ok? ==> rows == old(rows) && r == if amount <= 0.0 then NegativeAmount else InsufficientBalance
    {
      if amount <= 0.0 {
        return NegativeAmount;
      }
      var tx := rows;
      if key !in tx {
        tx := tx[key := Wallet(0.0, 0.0)];
      }
      if tx[key].balance - tx[key].locked < amount {
        return InsufficientBalance;
      }
      tx := tx[key := tx[key].(locked := tx[key].locked + amount)];
      rows := tx;
      r := Ok(rows[key]);
    }

    /** Locks the amount and adds its worth to the day's meter, or does neither. */
    method ReserveWithDailyLimit(user: User, asset: Asset, day: Day, amount: real, worth: real, limit: real) returns (r: Result<Wallet>)
      modifies this
      ensures r.Ok? <==> amount > 0.0 && worth > 0.0 && Reserved(old(rows), Key(user, asset, Spot), amount).Some?
                         && worth <= limit && Usage(old(used), Meter(user, asset, day)) + worth <= limit
      ensures r.Ok? ==> Reserved(old(rows), Key(user, asset, Spot), amount) == Some(rows)
                        && used == old(used)[Meter(user, asset, day) := Usage(old(used), Meter(user, asset, day)) + worth]
      ensures !r.Ok? ==> rows == old(rows) && used == old(used)
    {
      if amount <= 0.0 || worth <= 0.0 {
        return NegativeAmount;
      }
      var before := rows;
      var reserved := ReserveForAccount(Key(user, asset, Spot), amount);
      if !reserved.Ok? {
        return InsufficientBalance;
      }
      var m := Meter(user, asset, day);
      if worth > limit || (m in used && used[m] + worth > limit) {
        rows := before;
        return DailyLimitExceeded;
      }
      used := used[m := (if m in used then used[m] else 0.0) + worth];
      r := reserved;
    }

    method ReleaseDailyUsage(m: Meter, worth: real)
      modifies this`used
      ensures used == if worth > 0.0 && m in old(used)
                      then old(used)[m := if old(used)[m] >= worth then old(used)[m] - worth else 0.0]
                      else old(used)
    {
      if worth > 0.0 && m in used {
        used := used[m := if used[m] - worth >= 0.0 then used[m] - worth else 0.0];
      }
    }

    /** All of the batch or none of it. */
    method Settle(ops: seq<Op>) returns (ok: bool)
      modifies this`rows
      ensures ok <==> Settled(old(rows), ops).Some?
      ensures rows == if ok then Settled(old(rows), ops).value else old(rows)
    {
      hide ApplyOp, WithRows;
      var tx := UpsertWallets(rows, ops);
      ghost var done := rows;
      for i := 0 to |ops|
        invariant rows == old(rows)
        invariant Settled(rows, ops[..i]) == Some(done) && tx == WithRows(done, ops)
      {
        assert ops[..i + 1][..i] == ops[..i];
        ApplyWithRows(done, ops, i);
        var applied := Mutate(tx, ops[i]);
        if applied == None {
          StaysFailed(rows, ops, i + 1);
          return false;
        }
        tx := applied.value;
        done := ApplyOp(done, ops[i]).value;
      }
      assert ops[..|ops|] == ops;
      RowsAreWritten(rows, ops);
      rows := tx;
      ok := true;
    }
  }

  function KeysOf(ops: seq<Op>): set<Key> {
    set i | 0 <= i < |ops| :: ops[i].key
  }

  /** The rows with an empty one for every wallet of the batch that has none. */
  function WithRows(rows: Rows, ops: seq<Op>): Rows {
    map k | k in rows.Keys + KeysOf(ops) :: RowOf(rows, k)
  }

  lemma ApplyWithRows(rows: Rows, ops: seq<Op>, i: nat)
    requires i < |ops|
    ensures ops[i].key in WithRows(rows, ops)
    ensures ApplyOp(WithRows(rows, ops), ops[i]) ==
      if ApplyOp(rows, ops[i]) == None then None else Some(WithRows(ApplyOp(rows, ops[i]).value, ops))
  {
    var key := ops[i].key;
    assert key in KeysOf(ops);
    assert RowOf(WithRows(rows, ops), key) == RowOf(rows, key);
    if ApplyOp(rows, ops[i]).Some? {
      var w := ApplyOp(rows, ops[i]).value[key];
      assert WithRows(rows, ops)[key := w] == WithRows(rows[key := w], ops);
    }
  }

  /** A batch that goes through has written every wallet it names, so the empty rows make no difference. */
  lemma RowsAreWritten(rows: Rows, ops: seq<Op>)
    ensures Settled(rows, ops).Some? ==> WithRows(Settled(rows, ops).value, ops) == Settled(rows, ops).value
  {
    if Settled(rows, ops).Some? {
      forall i | 0 <= i < |ops| ensures ops[i].key in Settled(rows, ops).value {
        Written(rows, ops, i);
      }
    }
  }

  lemma {:induction false} Written(rows: Rows, ops: seq<Op>, i: nat)
    requires i < |ops| && Settled(rows, ops).Some?
    ensures ops[i].key in Settled(rows, ops).value
    decreases |ops|
  {
    if i < |ops| - 1 {
      Written(rows, ops[..|ops| - 1], i);
    }
  }

  /** The first loop of a settlement: a row for every wallet it touches. */
  method UpsertWallets(rows: Rows, ops: seq<Op>) returns (tx: Rows)
    ensures tx == WithRows(rows, ops)
  {
    tx := rows;
    for i := 0 to |ops|
      invariant tx == WithRows(rows, ops[..i])
    {
      assert KeysOf(ops[..i + 1]) == KeysOf(ops[..i]) + {ops[i].key};
      if ops[i].key !in tx {
        tx := tx[ops[i].key := Wallet(0.0, 0.0)];
      }
    }
    assert ops[..|ops|] == ops;
  }

  /** The body of the second: an unlock, then a guarded debit or a credit. */
  method Mutate(rows: Rows, op: Op) returns (r: Option<Rows>)
    requires op.key in rows
    ensures r == ApplyOp(rows, op)
  {
    var tx := rows;
    if op.unlock != 0.0 && tx[op.key].locked >= op.unlock {
      tx := tx[op.key := tx[op.key].(locked := tx[op.key].locked - op.unlock)];
    }
    if op.delta != 0.0 {
      if op.delta < 0.0 && tx[op.key].balance - tx[op.key].locked < -op.delta {
        return None;
      }
      tx := tx[op.key := tx[op.key].(balance := tx[op.key].balance + op.delta)];
    }
    assert tx == rows[op.key := tx[op.key]];
    r := Some(tx);
  }

  lemma {:induction false} StaysFailed(rows: Rows, ops: seq<Op>, n: nat)
    requires n <= |ops| && Settled(rows, ops[..n]) == None
    ensures Settled(rows, ops) == None
    decreases |ops|
  {
    if n < |ops| {
      assert ops[..|ops| - 1][..n] == ops[..n];
      StaysFailed(rows, ops[..|ops| - 1], n);
    } else {
      assert ops[..n] == ops;
    }
  }

  // ----- solvency -----

  /** No row owes: what is locked is there. */
  ghost predicate Solvent(rows: Rows) {
    forall k :: k in rows ==> 0.0 <= rows[k].locked <= rows[k].balance
  }

  lemma ReservedIsSolvent(rows: Rows, key: Key, amount: real)
    requires Solvent(rows) && amount > 0.0 && Reserved(rows, key, amount).Some?
    ensures Solvent(Reserved(rows, key, amount).value)
  {
  }

  /** Whatever the batch, a settlement that goes through leaves every row solvent. */
  lemma {:induction false} SettledIsSolvent(rows: Rows, ops: seq<Op>)
    requires Solvent(rows) && forall i :: 0 <= i < |ops| ==> ops[i].unlock >= 0.0
    requires Settled(rows, ops).Some?
    ensures Solvent(Settled(rows, ops).value)
  {
    if ops != [] {
      SettledIsSolvent(rows, ops[..|ops| - 1]);
    }
  }

  // ----- conservation -----

  /** The balances of the chosen rows together. */
  ghost function Total(rows: Rows, chosen: Key -> bool): real {
    Sum(map k | k in rows && chosen(k) :: rows[k].balance)
  }

  /** The changes of balance a batch asks for on the chosen rows. */
  ghost function Deltas(ops: seq<Op>, chosen: Key -> bool): real {
    if ops == [] then 0.0
    else Deltas(ops[..|ops| - 1], chosen) + (if chosen(ops[|ops| - 1].key) then ops[|ops| - 1].delta else 0.0)
  }

  lemma TotalUpdate(rows: Rows, key: Key, w: Wallet, chosen: Key -> bool)
    ensures Total(rows[key := w], chosen) == Total(rows, chosen) + When(chosen(key), w.balance - RowOf(rows, key).balance)
  {
    var was := map k | k in rows && chosen(k) :: rows[k].balance;
    var now := map k | k in rows[key := w] && chosen(k) :: rows[key := w][k].balance;
    if chosen(key) {
      assert now == was[key := w.balance];
      SumUpdate(was, key, w.balance);
    } else {
      assert now == was;
    }
  }

  /** A settlement changes the balances of any choice of rows by exactly the deltas of its batch. */
  lemma {:induction false} SettledTotal(rows: Rows, ops: seq<Op>, chosen: Key -> bool)
    requires Settled(rows, ops).Some?
    ensures Total(Settled(rows, ops).value, chosen) == Total(rows, chosen) + Deltas(ops, chosen)
  {
    if ops != [] {
      var before := Settled(rows, ops[..|ops| - 1]).value;
      var op := ops[|ops| - 1];
      SettledTotal(rows, ops[..|ops| - 1], chosen);
      TotalUpdate(before, op.key, Settled(rows, ops).value[op.key], chosen);
    }
  }

  lemma {:induction false} DeltasConcat(a: seq<Op>, b: seq<Op>, chosen: Key -> bool)
    ensures Deltas(a + b, chosen) == Deltas(a, chosen) + Deltas(b, chosen)
    decreases |b|
  {
    if b == [] {
      assert a + b == a;
    } else {
      DeltasConcat(a, b[..|b| - 1], chosen);
      assert (a + b)[..|a + b| - 1] == a + b[..|b| - 1];
    }
  }

  lemma DeltasOne(op: Op, chosen: Key -> bool)
    ensures Deltas([op], chosen) == When(chosen(op.key), op.delta)
  {
    assert [op][..0] == [];
  }

  /** The rows of one asset. */
  function OfAsset(asset: Asset): Key -> bool {
    (k: Key) => k.asset == asset
  }

  // ----- transfers between the accounts of one user -----

  function TransferOps(user: User, from: Account, to: Account, asset: Asset, amount: real): seq<Op> {
    [Op(Key(user, asset, from), 0.0, -amount), Op(Key(user, asset, to), 0.0, amount)]
  }

  datatype TransferError = SameAccount | NotPositive | Insufficient

  method Transfer(store: PGWalletStore, user: User, from: Account, to: Account, asset: Asset, amount: real)
    returns (e: Option<TransferError>)
    modifies store`rows
    ensures e.Some? ==> store.rows == old(store.rows)
    ensures e == None <==> from != to && amount > 0.0 && Settled(old(store.rows), TransferOps(user, from, to, asset, amount)).Some?
    ensures e == None ==> Settled(old(store.rows), TransferOps(user, from, to, asset, amount)) == Some(store.rows)
  {
    if from == to {
      return Some(SameAccount);
    }
    if amount <= 0.0 {
      return Some(NotPositive);
    }
    var ok := store.Settle(TransferOps(user, from, to, asset, amount));
    e := if ok then None else Some(Insufficient);
  }

  function Available(rows: Rows, key: Key): real {
    RowOf(rows, key).balance - RowOf(rows, key).locked
  }

  /** A transfer goes through exactly when that much is available, and moves it: the user's total stays. */
  lemma TransferConserves(rows: Rows, user: User, from: Account, to: Account, asset: Asset, amount: real)
    requires from != to && amount > 0.0
    ensures var r := Settled(rows, TransferOps(user, from, to, asset, amount));
      && (r.Some? <==> Available(rows, Key(user, asset, from)) >= amount)
      && (r.Some? ==>
          && Total(r.value, (k: Key) => k.user == user && k.asset == asset) == Total(rows, (k: Key) => k.user == user && k.asset == asset)
          && Available(r.value, Key(user, asset, from)) == Available(rows, Key(user, asset, from)) - amount
          && Available(r.value, Key(user, asset, to)) == Available(rows, Key(user, asset, to)) + amount)
  {
    var ops := TransferOps(user, from, to, asset, amount);
    var own := (k: Key) => k.user == user && k.asset == asset;
    assert ops[..1] == [ops[0]] && ops[..1][..0] == [];
    assert Settled(rows, ops[..1]) == ApplyOp(rows, ops[0]);
    if Settled(rows, ops).Some? {
      SettledTotal(rows, ops, own);
      assert Deltas(ops[..1], own) == -amount;
    }
  }

  /** An unlock takes its whole amount off the lock, if that much is locked, and otherwise nothing: never another's. */
  lemma UnlocksAllOrNothing(rows: Rows, op: Op)
    requires ApplyOp(rows, op).Some?
    ensures var was, now := RowOf(rows, op.key).locked, RowOf(ApplyOp(rows, op).value, op.key).locked;
      now == if op.unlock <= was then was - op.unlock else was
    ensures forall k :: k != op.key ==> RowOf(ApplyOp(rows, op).value, k) == RowOf(rows, k)
  {
  }
}
