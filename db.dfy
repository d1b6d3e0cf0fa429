/** The persistent wallet table (db.py): one row per (owner, currency). */
module Db {

  /** A row of the `Wallet` table. */
  datatype Wallet = Wallet(owner: string, amount: real, currency: string)

  /** The composite primary key of a row: (owner, currency). */
  type Key = (string, string)

  /**
   * The whole table. Because (owner, currency) is the primary key, the table
   * holds at most one amount per key, which a map states directly.
   */
  type Table = map<Key, real>

  /** The currencies `owner` holds: the rows a query filtered by owner returns. */
  function Owned(t: Table, owner: string): set<string>
  {
    set k | k in t && k.0 == owner :: k.1
  }
}
