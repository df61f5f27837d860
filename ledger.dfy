/** The ledger proper: the `account` and `balance` tables of one database, and the effect on
    them of each statement the ledger runs. Connections, prepared statements and batching are
    not modelled; each method is the net effect of its SQL on the two tables. */
module Ledger {
  import opened Wrappers
  import opened Schema
  import opened Leaderboard

  /** Where, if anywhere, a `convert` fails: emptying the tables, the account batch (reading the
      source's rows or inserting them) or the balance batch. */
  datatype Failure = NoFailure | DeleteFails | AccountCopyFails | BalanceCopyFails

  /** A non-empty set of ids has a largest one. */
  lemma {:induction false} LargestIdExists(ids: set<int>)
    requires ids != {}
    ensures exists k :: k in ids && forall j :: j in ids ==> j <= k
    decreases |ids|
  {
    assert (forall x :: x !in ids) ==> ids == {};
    var x :| x in ids;
    var rest := ids - {x};
    if rest == {} {
      forall j | j in ids ensures j <= x {
        assert j == x || j in rest;
      }
    } else {
      LargestIdExists(rest);
      var k :| k in rest && forall j :: j in rest ==> j <= k;
      var top := if x > k then x else k;
      forall j | j in ids ensures j <= top {
        if j != x {
          assert j in rest;
        }
      }
      assert top in ids;
    }
  }

  /** The backend's id counter after rows with the explicit ids `ids` are inserted: an insert
      with an explicit id moves an auto-increment counter past that id, and no further. */
  function CounterAfterInserts(next: int, ids: set<int>): (n: int)
    ensures n >= next && forall id :: id in ids ==> id < n
    ensures n == next || n - 1 in ids
  {
    if ids == {} then next
    else
      LargestIdExists(ids);
      var k :| k in ids && forall j :: j in ids ==> j <= k;
      if k >= next then k + 1 else next
  }

  class Database {
    /** account: id -> uuid. `id` is the primary key, `uuid` is UNIQUE. */
    var account: map<int, Uuid>
    /** balance: id -> balance. `id` is the primary key. */
    var balance: map<int, Long>
    /** The backend's auto-increment counter for `account.id`: the next id it issues. */
    var nextId: int

    /** The table constraints: identities are unique, and the counter is past every id in use. */
    ghost predicate Valid()
      reads this
    {
      && Injective(account)
      && (forall id :: id in account ==> id < nextId)
    }

    /** A database whose tables have just been created. */
    constructor ()
      ensures Valid()
      ensures account == map[] && balance == map[]
    {
      account := map[];
      balance := map[];
      nextId := 1;
    }

    /** `getId`: the id mapped to `uuid`, issuing a fresh one the first time.
        Within one transaction it looks the uuid up; if it is absent, it inserts a row with the
        uuid alone, letting the backend issue the id, and looks the uuid up again. */
    method GetId(uuid: Uuid) returns (id: int)
      requires Valid()
      modifies this`account, this`nextId
      ensures Valid()
      ensures id in account && account[id] == uuid
      ensures uuid in old(account.Values) ==> account == old(account) && nextId == old(nextId)
      ensures uuid !in old(account.Values) ==>
                id !in old(account) && id == old(nextId) && account == old(account)[id := uuid]
    {
      assert (forall i :: !(i in account && account[i] == uuid)) ==> uuid !in account.Values;
      if uuid in account.Values {
        id :| id in account && account[id] == uuid;
        return;
      }
      account := account[nextId := uuid];
      nextId := nextId + 1;
      assert account[nextId - 1] == uuid;
      id :| id in account && account[id] == uuid;
    }

    /** `getUUID`: the identity of the account row with this id, if there is one. */
    method GetUuid(id: int) returns (r: Option<Uuid>)
      ensures r.Some? <==> id in account
      ensures r.Some? ==> r.value == account[id]
    {
      if id in account {
        r := Some(account[id]);
      } else {
        r := None;
      }
    }

    /** `getBalance`: the amount of the balance row with this id, if there is one. */
    method GetBalance(id: int) returns (r: Option<Long>)
      ensures r.Some? <==> id in balance
      ensures r.Some? ==> r.value == balance[id]
    {
      if id in balance {
        r := Some(balance[id]);
      } else {
        r := None;
      }
    }

    /** `createAccount`: inserts a balance row. An existing row makes the insert fail
        on the primary key, which surfaces as an error, never as an overwrite. */
    method CreateAccount(id: int, amount: Long) returns (r: Result<bool, DbError>)
      modifies this`balance
      ensures id in old(balance) ==> r == Err(DuplicateKey) && balance == old(balance)
      ensures id !in old(balance) ==> r == Ok(true) && balance == old(balance)[id := amount]
    {
      if id in balance {
        return Err(DuplicateKey);
      }
      balance := balance[id := amount];
      r := Ok(true);
    }

    /** `removeAccount`: deletes the balance row with this id. The `account` row stays. */
    method RemoveAccount(id: int) returns (removed: bool)
      modifies this`balance
      ensures removed <==> id in old(balance)
      ensures balance == old(balance) - {id}
    {
      removed := id in balance;
      balance := balance - {id};
    }

    /** `setBalance`: overwrites the amount of the balance row with this id. No row is created. */
    method SetBalance(id: int, amount: Long) returns (updated: bool)
      modifies this`balance
      ensures updated <==> id in old(balance)
      ensures balance == if updated then old(balance)[id := amount] else old(balance)
    {
      updated := id in balance;
      if updated {
        balance := balance[id := amount];
      }
    }

    /** `deposit`: adds to the amount of the balance row in one atomic update statement; a
        negative amount withdraws. A sum outside BIGINT makes the statement fail, leaving the row. */
    method Deposit(id: int, amount: Long) returns (r: Result<bool, DbError>)
      modifies this`balance
      ensures id !in old(balance) ==> r == Ok(false) && balance == old(balance)
      ensures id in old(balance) && InLongRange(old(balance)[id] + amount) ==>
                r == Ok(true) && balance == old(balance)[id := old(balance)[id] + amount]
      ensures id in old(balance) && !InLongRange(old(balance)[id] + amount) ==>
                r == Err(OutOfRange) && balance == old(balance)
    {
      if id !in balance {
        return Ok(false);
      }
      var sum := balance[id] + amount;
      if !InLongRange(sum) {
        return Err(OutOfRange);
      }
      balance := balance[id := sum];
      r := Ok(true);
    }

    /** `top`: one page of the balance rows in descending order of balance, collected in
        order into an insertion-ordered map. The order of tied balances is the backend's:
        the page is one of some ranking of the table, not of a particular one. */
    method Top(limit: nat, offset: nat) returns (r: seq<Row>)
      ensures exists rk: seq<Row> :: IsRankingOf(rk, balance) && r == Page(rk, limit, offset)
                && forall i, j :: 0 <= i < offset && i < |balance| && 0 <= j < |r| ==> rk[i].1 >= r[j].1
      ensures |r| <= limit
      ensures offset >= |balance| ==> r == []
      ensures RowsOf(r, balance) && DistinctIds(r) && Descending(r)
    {
      var all := Ranking(balance);
      var rows := Page(all, limit, offset);
      assert DistinctIds(rows) by {
        PageOfRanking(balance, all, limit, offset);
      }
      r := [];
      var i := 0;
      while i < |rows|
        invariant 0 <= i <= |rows|
        invariant r == rows[..i]
      {
        PutFresh(r, rows[i].0, rows[i].1);
        r := Put(r, rows[i].0, rows[i].1);
        assert rows[..i + 1] == rows[..i] + [rows[i]];
        i := i + 1;
      }
      assert rows[..i] == rows;
      PageOfRanking(balance, all, limit, offset);
    }

    /** `convert`: replaces both tables with those of `source`, in one transaction on this
        database: both tables are emptied, then every account row and every
        balance row of the source inserted as one batch each, ids kept as they are. `failure`
        stands for the backends: the statement it names raises an error, and the transaction
        is rolled back. */
    method Convert(source: Database, failure: Failure) returns (r: Outcome<DbError>)
      requires Valid() && source.Valid() && source != this
      modifies this
      ensures Valid()
      ensures source.account == old(source.account) && source.balance == old(source.balance)
      ensures r.Fail? <==> failure != NoFailure
      ensures r.Fail? ==> r.error == MigrationFailed && account == old(account) && balance == old(balance)
      ensures r.Pass? ==> account == source.account && balance == source.balance
    {
      // the transaction starts: this is what a rollback returns to
      var savedAccount, savedBalance := account, balance;
      account := map[];
      balance := map[];
      if failure == DeleteFails {
        account, balance := savedAccount, savedBalance;
        return Fail(MigrationFailed);
      }
      var accounts := source.ReadAccounts();
      if failure == AccountCopyFails {
        account, balance := savedAccount, savedBalance;
        return Fail(MigrationFailed);
      }
      account := account + accounts;
      nextId := CounterAfterInserts(nextId, accounts.Keys);
      var balances := source.ReadBalances();
      if failure == BalanceCopyFails {
        account, balance := savedAccount, savedBalance;
        return Fail(MigrationFailed);
      }
      balance := balance + balances;
      r := Pass;
    }

    /** The first copy loop of `convert`: every (id, uuid) row of this `account` table, gathered
        into the batch to insert. */
    method ReadAccounts() returns (batch: map<int, Uuid>)
      ensures batch == account
    {
      batch := map[];
      var rows := account.Keys;
      while rows != {}
        invariant rows <= account.Keys
        invariant batch.Keys == account.Keys - rows
        invariant forall id :: id in batch ==> batch[id] == account[id]
        decreases rows
      {
        assert (forall x :: x !in rows) ==> rows == {};
        var id :| id in rows;
        batch := batch[id := account[id]];
        rows := rows - {id};
      }
      assert batch.Keys == account.Keys;
      assert forall k :: k in batch <==> k in account;
      assert forall k :: k in batch ==> batch[k] == account[k];
    }

    /** The second copy loop of `convert`: every (id, balance) row of this `balance` table,
        gathered into the batch to insert. */
    method ReadBalances() returns (batch: map<int, Long>)
      ensures batch == balance
    {
      batch := map[];
      var rows := balance.Keys;
      while rows != {}
        invariant rows <= balance.Keys
        invariant batch.Keys == balance.Keys - rows
        invariant forall id :: id in batch ==> batch[id] == balance[id]
        decreases rows
      {
        assert (forall x :: x !in rows) ==> rows == {};
        var id :| id in rows;
        batch := batch[id := balance[id]];
        rows := rows - {id};
      }
      assert batch.Keys == balance.Keys;
      assert forall k :: k in batch <==> k in balance;
      assert forall k :: k in batch ==> batch[k] == balance[k];
    }
  }
}
