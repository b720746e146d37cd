/**
 * The data layer as the HTTP handlers see it: the row types of package db, the
 * parameter records of the store operations, a snapshot of the rows the point
 * lookups read, and the store calls a handler can issue.
 *
 * The ledger operations themselves (TransferTx, DepositTx) and the SQL behind
 * CreateAccount, ListAccounts and ListDeposits are opaque: a handler's model
 * records the call and its parameters, and receives the call's result as a
 * `Reply`.
 */
module Db {

  /** Go's int64 and int32. */
  newtype int64 = x: int | -0x8000_0000_0000_0000 <= x < 0x8000_0000_0000_0000
  newtype int32 = x: int | -0x8000_0000 <= x < 0x8000_0000

  /** A row of table accounts (created_at is left out). */
  datatype Account = Account(id: int64, owner: string, balance: int64, currency: string)

  /** Go's zero value of Account: what GetAccount hands back together with an error. */
  const ZeroAccount: Account := Account(0, "", 0, "")

  /** A row of table deposits (created_at is left out). */
  datatype Deposit = Deposit(id: int64, accountId: int64, amount: int64, user: string)

  /** What a point lookup returns: the row, sql.ErrNoRows, or any other error. */
  datatype Lookup<T> = Found(value: T) | NotFound | Failed

  /**
   * The rows visible to point lookups. An id in `accountFaults` (or
   * `depositFaults`) is one whose lookup fails with an error other than
   * sql.ErrNoRows, such as a lost connection.
   */
  datatype Store = Store(
    accounts: map<int64, Account>,
    deposits: map<int64, Deposit>,
    accountFaults: set<int64>,
    depositFaults: set<int64>)
  {
    /** Account `id` can be read: GetAccount returns its row. */
    predicate AccountReadable(id: int64)
      ensures AccountReadable(id) <==> LookupAccount(id).Found?
    {
      id !in accountFaults && id in accounts
    }

    /** Deposit `id` can be read: GetDeposit returns its row. */
    predicate DepositReadable(id: int64)
      ensures DepositReadable(id) <==> LookupDeposit(id).Found?
    {
      id !in depositFaults && id in deposits
    }

    /** GetAccount(ctx, id). */
    function LookupAccount(id: int64): Lookup<Account> {
      if id in accountFaults then Failed
      else if id in accounts then Found(accounts[id])
      else NotFound
    }

    /** GetDeposit(ctx, id). */
    function LookupDeposit(id: int64): Lookup<Deposit> {
      if id in depositFaults then Failed
      else if id in deposits then Found(deposits[id])
      else NotFound
    }
  }

  datatype TransferTxParams = TransferTxParams(fromAccountId: int64, toAccountId: int64, amount: int64)
  datatype DepositTxParams = DepositTxParams(accountId: int64, amount: int64, user: string)
  datatype CreateAccountParams = CreateAccountParams(owner: string, balance: int64, currency: string)
  datatype ListAccountsParams = ListAccountsParams(owner: string, limit: int32, offset: int32)
  datatype ListDepositsParams = ListDepositsParams(accountId: int64, limit: int32, offset: int32)

  /** One call a handler makes on the store, with the arguments it passes. */
  datatype Call =
    | GetAccount(id: int64)
    | GetDeposit(id: int64)
    | TransferTx(transfer: TransferTxParams)
    | DepositTx(deposit: DepositTxParams)
    | CreateAccount(create: CreateAccountParams)
    | ListAccounts(accountPage: ListAccountsParams)
    | ListDeposits(depositPage: ListDepositsParams)

  /**
   * The kind of a store error: the two Postgres constraint codes the account
   * handler singles out, and everything else (other codes, non-Postgres errors).
   */
  datatype ErrKind = ForeignKeyViolation | UniqueViolation | OtherError

  /** The result of an opaque store operation. */
  datatype Reply<T> = Ok(value: T) | Err(kind: ErrKind)
}
