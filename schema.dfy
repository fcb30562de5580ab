/** The shapes of the two stored records: a player and one settled bet.
    Balances and bet amounts are declared as integer columns, so they are
    `int` here; timestamps are milliseconds since the epoch. */
module Schema {
  import opened Builtins

  datatype User = User(
    id: int,
    username: string,
    walletAddress: Option<string>,
    password: Option<string>,
    ftnBalance: int,
    lbrBalance: int,
    createdAt: Option<int>)

  /** What a caller hands to `createUser`: every column but the id. The
      balances are optional, and the ledger ignores them. */
  datatype NewUser = NewUser(
    username: string,
    walletAddress: Option<string>,
    password: Option<string>,
    ftnBalance: Option<int>,
    lbrBalance: Option<int>,
    createdAt: Option<int>)

  datatype Transaction = Transaction(
    id: int,
    userId: int,
    betAmount: int,
    betToken: string,
    betColor: string,
    result: string,
    timestamp: int)

  /** What a caller hands to `createTransaction`: every column but the id. */
  datatype NewTransaction = NewTransaction(
    userId: int,
    betAmount: int,
    betToken: string,
    betColor: string,
    result: string,
    timestamp: int)

  /** The record `{ ...insertTransaction, id }`. */
  function WithId(t: NewTransaction, id: int): Transaction
  {
    Transaction(id, t.userId, t.betAmount, t.betToken, t.betColor, t.result, t.timestamp)
  }
}
