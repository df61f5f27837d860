/** What a caller of the ledger can conclude from the contracts alone, across several calls:
    identities resolve stably and injectively, a created account reads back, a removed one is
    gone, two deposits in a row add up, and a converted ledger reads like its source. */
module LedgerClients {
  import opened Wrappers
  import opened Schema
  import opened Leaderboard
  import opened Ledger

  /** Resolving the same identity twice gives the same id, and the second call changes nothing. */
  method ResolveTwice(db: Database, uuid: Uuid) returns (first: int, second: int)
    requires db.Valid()
    modifies db
    ensures first == second
    ensures db.Valid() && first in db.account && db.account[first] == uuid
  {
    first := db.GetId(uuid);
    ghost var afterFirst := db.account;
    second := db.GetId(uuid);
    assert db.account == afterFirst;
  }

  /** Different identities resolve to different ids. */
  method ResolveDistinct(db: Database, u1: Uuid, u2: Uuid) returns (id1: int, id2: int)
    requires db.Valid() && u1 != u2
    modifies db
    ensures id1 != id2
  {
    id1 := db.GetId(u1);
    id2 := db.GetId(u2);
  }

  /** The id `getId` hands out looks up to the identity it was issued for. */
  method ResolveThenLookup(db: Database, uuid: Uuid) returns (id: int, found: Option<Uuid>)
    requires db.Valid()
    modifies db
    ensures found == Some(uuid)
  {
    id := db.GetId(uuid);
    found := db.GetUuid(id);
  }

  /** A balance row created for a fresh id reads back with its initial amount; creating it a
      second time is refused and the amount stays. */
  method CreateThenRead(db: Database, id: int, amount: Long, other: Long)
      returns (created: Result<bool, DbError>, again: Result<bool, DbError>, read: Option<Long>)
    requires id !in db.balance
    modifies db
    ensures created == Ok(true) && again == Err(DuplicateKey) && read == Some(amount)
  {
    created := db.CreateAccount(id, amount);
    again := db.CreateAccount(id, other);
    read := db.GetBalance(id);
  }

  /** Removing an existing balance row answers true, after which the balance reads as absent,
      the identity stays mapped, and removing again answers false. */
  method RemoveThenRead(db: Database, id: int)
      returns (removed: bool, read: Option<Long>, again: bool)
    requires id in db.balance
    modifies db
    ensures removed && read == None && !again
    ensures db.account == old(db.account)
  {
    removed := db.RemoveAccount(id);
    read := db.GetBalance(id);
    again := db.RemoveAccount(id);
  }

  /** Two deposits in a row add both amounts when no intermediate sum leaves BIGINT. */
  method TwoDeposits(db: Database, id: int, d1: Long, d2: Long) returns (r1: Result<bool, DbError>, r2: Result<bool, DbError>)
    requires id in db.balance
    requires InLongRange(db.balance[id] + d1) && InLongRange(db.balance[id] + d1 + d2)
    modifies db
    ensures r1 == Ok(true) && r2 == Ok(true)
    ensures db.balance == old(db.balance)[id := old(db.balance)[id] + d1 + d2]
  {
    r1 := db.Deposit(id, d1);
    r2 := db.Deposit(id, d2);
  }

  /** After a successful `convert`, every lookup on the destination answers as on the source. */
  method ConvertThenRead(db: Database, source: Database, id: int)
      returns (r: Outcome<DbError>, uuid: Option<Uuid>, amount: Option<Long>)
    requires db.Valid() && source.Valid() && db != source
    modifies db
    ensures r == Pass
    ensures uuid == (if id in source.account then Some(source.account[id]) else None)
    ensures amount == (if id in source.balance then Some(source.balance[id]) else None)
  {
    r := db.Convert(source, NoFailure);
    uuid := db.GetUuid(id);
    amount := db.GetBalance(id);
  }
}
