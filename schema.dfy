/** The row types of the two ledger tables, and the errors the statements on them can raise.
    The constraints assumed: in `account` the id is the key and the uuid is unique; in
    `balance` the id is the key and the amount is a signed 64-bit integer. */
module Schema {

  const MinLong: int := -0x8000_0000_0000_0000
  const MaxLong: int := 0x7FFF_FFFF_FFFF_FFFF

  /** Java's `long`, the SQL BIGINT column `balance`. */
  type Long = x: int | MinLong <= x <= MaxLong

  predicate InLongRange(x: int) {
    MinLong <= x <= MaxLong
  }

  /** A player's identity; its encoding as bytes is not part of this model, so it is opaque. */
  datatype Uuid = Uuid(mostSigBits: Long, leastSigBits: Long)

  /** One row of the `balance` table, as `top` reports it. */
  type Row = (int, Long)

  datatype DbError =
    | DuplicateKey      // an INSERT hit the primary key of an existing row
    | OutOfRange        // BIGINT arithmetic left the 64-bit range
    | MigrationFailed   // some statement of `convert` failed; the transaction was rolled back

  /** The `uuid` column of `account` is UNIQUE: no two ids share an identity. */
  ghost predicate Injective(m: map<int, Uuid>) {
    forall i, j :: i in m && j in m && m[i] == m[j] ==> i == j
  }
}
