# Jecon balance ledger, modelled in Dafny

Jecon keeps a virtual-currency ledger in an SQL database reached over JDBC. `Database.java`
runs a fixed set of statements over two tables:

- `account(id, uuid)`: a player's identity and the integer id issued for it. Both columns
  are unique.
- `balance(id, balance)`: one signed 64-bit amount per account id that has a ledger entry.

This project models those two tables as the fields of the class `Ledger.Database`. `account`
is a `map<int, Uuid>` kept injective. `balance` is a `map<int, Long>`. A third field, `nextId`,
stands for the backend's auto-increment counter. Each public method of `Database.java` is
modelled by a method whose contract states its return value and the new contents of both
tables. The backend choice and the pool settings of `connect` are pure functions.

Files:

- `wrappers.dfy`: `Option`, `Result`, `Outcome`.
- `schema.dfy`: `Long` (the BIGINT range), `Uuid` (opaque), row and error types, `Injective`.
- `connect.dfy`: backend choice from the JDBC URL, positive-only pool settings, `Connect`.
- `leaderboard.dfy`: the `ORDER BY balance DESC` view of the balance table, `LIMIT`/`OFFSET`,
  and the put of the insertion-ordered map that `top` returns.
- `ledger.dfy`: the class `Database` and its operations.
- `ledger_clients.dfy`: chains of calls and what the contracts let a caller conclude.

Behaviour of the code that the model states as written:

- `createAccount` on an id that already has a balance row: the `INSERT` violates the primary
  key, and the code wraps the `SQLException` in a `RuntimeException` (Database.java:173-174).
  The model returns `Err(DuplicateKey)` and leaves the table unchanged.
- `removeAccount` deletes only the `balance` row. The `account` mapping stays.
- `convert` never calls `commit`. Its `finally` block turns auto-commit back on, and JDBC
  commits the open transaction at that point. The model treats reaching the end as the commit.

## Model

| member | source | states |
|---|---|---|
| `Connect.ChooseBackend` | src/main/java/jp/jyn/jecon/db/Database.java:57-69 | A URL selects SQLite iff it starts with `jdbc:sqlite:`, MySQL iff it starts with `jdbc:mysql:`, and Unknown iff it starts with neither. So exactly one backend is chosen. |
| `Connect.PrefixesExclusive` | src/main/java/jp/jyn/jecon/db/Database.java:57-61 | No URL starts with both prefixes, so the order of the two tests does not matter. |
| `Connect.ApplyPoolSettings` | src/main/java/jp/jyn/jecon/db/Database.java:39-53 | Each of the five pool settings takes the configured value when it is positive. Otherwise it keeps the pool's default. |
| `Connect.NonPositiveSettingsIgnored` | src/main/java/jp/jyn/jecon/db/Database.java:39-53 | Two configurations that agree on their positive settings give the same pool. The actual value of a non-positive setting (the "-1" sentinel or any other) has no effect. |
| `Connect.ApplyPoolSettingsIdempotent` | src/main/java/jp/jyn/jecon/db/Database.java:39-53 | Applying the same configuration a second time changes nothing. |
| `Connect.Connect` | src/main/java/jp/jyn/jecon/db/Database.java:30-69 | Fails with "Unknown jdbc" exactly when the URL selects no backend. On success: the chosen backend, URL, pool name, auto-commit on, init SQL, data-source properties and guarded pool settings. Username and password are set iff the backend is MySQL. |
| `Ledger.Database.constructor` | src/main/java/jp/jyn/jecon/db/Database.java:71-72 | Freshly created tables are empty and satisfy the table constraints. |
| `Ledger.Database.GetId` | src/main/java/jp/jyn/jecon/db/Database.java:86-127 | Always returns an id whose `account` row holds `uuid`, and leaves `balance` untouched. For a mapped uuid, nothing changes. Otherwise exactly one row (fresh id ↦ uuid) is added, using an id not already in use. Uniqueness of uuids is preserved. |
| `Ledger.Database.GetUuid` | src/main/java/jp/jyn/jecon/db/Database.java:129-144 | Read-only. Returns a value iff `account` has a row for the id, and that value is the row's uuid. Otherwise it returns empty. |
| `Ledger.Database.GetBalance` | src/main/java/jp/jyn/jecon/db/Database.java:146-161 | Read-only. Returns a value iff `balance` has a row for the id, and that value is the row's amount. Otherwise it returns empty. |
| `Ledger.Database.CreateAccount` | src/main/java/jp/jyn/jecon/db/Database.java:163-177 | On an id without a balance row, inserts (id, amount) and returns true. On an existing row it reports the key violation and changes nothing. It never overwrites. |
| `Ledger.Database.RemoveAccount` | src/main/java/jp/jyn/jecon/db/Database.java:179-189 | Returns true iff a balance row existed. Afterwards the table is the old one minus that id. `account` is not in its frame, so it is untouched. |
| `Ledger.Database.SetBalance` | src/main/java/jp/jyn/jecon/db/Database.java:191-202 | Returns true iff the row exists. On true only that row changes, to the new amount. On false nothing changes, and no row is created. |
| `Ledger.Database.Deposit` | src/main/java/jp/jyn/jecon/db/Database.java:204-215 | Returns false and changes nothing when there is no row. Otherwise only that row changes, to old + amount (negative amounts allowed). A sum outside BIGINT is an error that changes nothing. |
| `Ledger.Database.Top` | src/main/java/jp/jyn/jecon/db/Database.java:217-236 | Returns at most `limit` rows, each an existing (id, balance) row, with distinct ids, in non-increasing balance order. It is the page at `offset` of some ordering of the whole table by descending balance, with no particular order among ties, so every skipped row ranks at least as high as every returned one. The result is empty when `offset` ≥ the row count, and nothing is modified. |
| `Ledger.Database.Convert` | src/main/java/jp/jyn/jecon/db/Database.java:238-284 | After success, both destination tables equal the source's, with ids kept and prior rows gone. The source is never modified. A failure at any statement leaves both destination tables as they were, and the table constraints hold either way. |
| `Ledger.Database.ReadAccounts` | src/main/java/jp/jyn/jecon/db/Database.java:248-260 | The loop over the source's `account` rows gathers every row: the batch equals the table. |
| `Ledger.CounterAfterInserts` | src/main/java/jp/jyn/jecon/db/Database.java:258 | After the account batch with explicit ids, the destination's id counter is at least its old value and past every inserted id, and it moves no further than one past the largest of them. |
| `Ledger.LargestIdExists` | src/main/java/jp/jyn/jecon/db/Database.java:258 | A non-empty batch of ids has a largest id, which is what the counter moves past. |
| `Ledger.Database.ReadBalances` | src/main/java/jp/jyn/jecon/db/Database.java:262-274 | The loop over the source's `balance` rows gathers every row: the batch equals the table. |
| `Leaderboard.Ranking` | src/main/java/jp/jyn/jecon/db/Database.java:223 | The table in `ORDER BY balance DESC` order: every row exactly once (same length, only rows of the table, distinct ids, every row present), balances non-increasing. |
| `Leaderboard.LeaderExists` | src/main/java/jp/jyn/jecon/db/Database.java:223 | Every non-empty table has a row with the largest balance, which is the row the order can begin with. |
| `Leaderboard.RankingCons` | src/main/java/jp/jyn/jecon/db/Database.java:223 | A largest row followed by an ordering of the remaining rows is an ordering of the whole table. |
| `Leaderboard.Page` | src/main/java/jp/jyn/jecon/db/Database.java:223 | `LIMIT`/`OFFSET` gives the rows from position `offset` on, at most `limit` of them, and none past the end. |
| `Leaderboard.PageOfRanking` | src/main/java/jp/jyn/jecon/db/Database.java:223 | A page of any ordering of the table by descending balance, whatever it does with ties, is bounded by `limit` and empty past the end. It holds only table rows, with distinct ids, in non-increasing order, and every skipped row ranks at least as high as every returned one. |
| `Leaderboard.Put` | src/main/java/jp/jyn/jecon/db/Database.java:229 | A put into the insertion-ordered map either keeps the length (the key was present) or appends the new entry. |
| `Leaderboard.PutFresh` | src/main/java/jp/jyn/jecon/db/Database.java:228-230 | Putting an id that is not yet present appends it. Since `top`'s ids are distinct, the returned map keeps the query's order. |
| `Leaderboard.PutExisting` | src/main/java/jp/jyn/jecon/db/Database.java:229 | Putting an id that is present replaces its value and keeps its position. |
| `Leaderboard.ExampleRanking` | src/main/java/jp/jyn/jecon/db/Database.java:223 | Over the balances {1: 300, 2: 100, 3: 200}, every ordering the query may return is 1, 3, 2. |
| `Leaderboard.PageExample` | src/main/java/jp/jyn/jecon/db/Database.java:223 | Over those balances and for every ordering the query may return, `top(2, 0)` is [(1, 300), (3, 200)], `top(2, 2)` is [(2, 100)] and `top(5, 10)` is empty. |
| `LedgerClients.ResolveTwice` | src/main/java/jp/jyn/jecon/db/Database.java:86-116 | Resolving the same uuid twice gives the same id. |
| `LedgerClients.ResolveDistinct` | src/main/java/jp/jyn/jecon/db/Database.java:86-116 | Different uuids resolve to different ids. |
| `LedgerClients.ResolveThenLookup` | src/main/java/jp/jyn/jecon/db/Database.java:86-144 | `getUUID(getId(u))` is `u`. |
| `LedgerClients.CreateThenRead` | src/main/java/jp/jyn/jecon/db/Database.java:146-177 | A created row reads back with its amount. A second create is refused, and the amount stays. |
| `LedgerClients.RemoveThenRead` | src/main/java/jp/jyn/jecon/db/Database.java:146-189 | After a removal, the balance reads as absent and the identity mapping remains. A second removal answers false. |
| `LedgerClients.TwoDeposits` | src/main/java/jp/jyn/jecon/db/Database.java:204-215 | Two deposits in a row add both amounts whenever no intermediate sum leaves BIGINT. |
| `LedgerClients.ConvertThenRead` | src/main/java/jp/jyn/jecon/db/Database.java:129-161 | After a successful convert, every lookup on the destination answers as it does on the source. |

## Left out

- HikariCP pool construction, connection acquisition and `close()`: resource plumbing over a
  library that is not part of this model. `Connect` stops at the pool configuration it builds.
- The pool library's defaults: `Connect` takes them as a parameter.
- HikariConfig's setters and the pool's validation of its settings: the library's own checks
  (for example `setConnectionTimeout` rejects 1 to 249 ms, and `maxLifetime` and `minimumIdle`
  are clamped) belong to a library that is not part of this model. `ApplyPoolSettings` states
  the values the code passes to the setters.
- The `SQLite` and `MySQL` subclasses, `migration()` and `createTable()`: their schema and DDL
  are in files that are not part of this model. The constructor stands for freshly created
  tables.
- `UUIDBytes` byte encoding: `Uuid` is opaque.
- Logging.
- Concurrency:
  - the race between the SELECT and the INSERT of `getId` for one uuid;
  - consistency across processes;
  - row locking.
  The model is sequential.
- Connection failures and backend errors of the single-statement operations and of `getId`.
  The code turns each into a `RuntimeException`, rolls back (for `getId`), and the tables keep
  their old contents. Only `convert`'s failure path is modelled, through its `failure` parameter.
- Ledger.Database.GetId: does not model the "ID could not be issued" exception (line 126). The
  model proves that the re-select always finds the row just inserted. Ids are unbounded
  integers, so the model does not cover 32-bit overflow of the counter.
- Ledger.Database.Deposit: follows MySQL, where a result outside BIGINT fails the statement.
  It does not model SQLite's conversion of an overflowing sum to a floating-point value.
- Ledger.Database.Top: `limit` and `offset` are natural numbers. Negative values are
  backend-specific: SQLite reads a negative LIMIT as "no limit", and MySQL rejects it.
- Ledger.Database.Top: the body computes one particular ordering. `Leaderboard.Ranking` puts
  the smallest id first among equal balances. The contract only says the page comes from some
  ordering of the table by descending balance, so the backend's order among ties stays open.
- Ledger.Database.Convert: a failure is named only by the statement group it hits (the DELETEs,
  the account batch, or the balance batch). The model does not say which row failed.
- Ledger.Database.Convert: on MySQL (InnoDB) a rolled-back insert does not roll the id counter
  back, and on SQLite it does. `Convert`'s contract leaves `nextId` open apart from the table
  constraints, so both are covered. The body only moves it forward.
- Ledger.CounterAfterInserts: models a counter that stays past every id ever used (MySQL's
  AUTO_INCREMENT). A backend that issues the largest current id plus one may issue a smaller
  id after `convert`. `GetId`'s freshness holds either way.
- Ledger.Database.Convert: requires the source to be a different database object from the
  destination.
- Ledger.Database.ReadAccounts, Ledger.Database.ReadBalances: JDBC batching (`addBatch`,
  `executeBatch`) is modelled as gathering the rows into one map that is then inserted.
