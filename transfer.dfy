/**
 * POST /transfers (api/transfer.go): bind the request, check the origin
 * account (existence, currency), check that it belongs to the caller, check
 * the destination account (existence, currency), then call TransferTx.
 */
module Transfers {
  import opened Wrappers
  import opened Db
  import opened Api

  /** The decoded JSON body of a transfer request. */
  datatype TransferRequest = TransferRequest(fromAccountId: int64, toAccountId: int64, amount: int64, currency: string)

  /**
   * ShouldBindJSON succeeds: the body decoded (None stands for malformed JSON,
   * wrong field types or numbers outside int64) and the tags hold — both ids
   * at least 1, a positive amount, and a currency that the registered
   * `currency` validator accepts, here membership of `currencies`.
   */
  predicate Binds(body: Option<TransferRequest>, currencies: set<string>) {
    && body.Some?
    && body.value.fromAccountId >= 1
    && body.value.toAccountId >= 1
    && body.value.amount > 0
    && body.value.currency != ""
    && body.value.currency in currencies
  }

  /** Account `id` can be read and is held in `currency`. */
  predicate UsableIn(store: Store, id: int64, currency: string) {
    store.AccountReadable(id) && store.accounts[id].currency == currency
  }

  /**
   * When a bound request may move money: both accounts are usable in the
   * request's currency and the origin belongs to the caller. Nothing compares
   * the two ids.
   */
  predicate Permitted(req: TransferRequest, username: string, store: Store) {
    && UsableIn(store, req.fromAccountId, req.currency)
    && store.accounts[req.fromAccountId].owner == username
    && UsableIn(store, req.toAccountId, req.currency)
  }

  /**
   * The result of validAccountCurrency: the account (its bool result is
   * true), or the error status it wrote (its bool result is false; the
   * account it returns alongside is discarded by the caller).
   */
  datatype CurrencyCheck = Usable(account: Account) | Refused(status: Status)

  /** Look up account `id` with GetAccount and check it is held in `currency`. */
  function ValidAccountCurrency(store: Store, id: int64, currency: string): (r: CurrencyCheck)
    ensures r.Usable? <==> UsableIn(store, id, currency)
    ensures r.Usable? ==> r.account == store.accounts[id]
    ensures id in store.accountFaults ==> r == Refused(StatusInternalServerError)
    ensures id !in store.accountFaults && id !in store.accounts ==> r == Refused(StatusNotFound)
    ensures id !in store.accountFaults && id in store.accounts && store.accounts[id].currency != currency ==>
              r == Refused(StatusBadRequest)
  {
    match store.LookupAccount(id)
    case NotFound => Refused(StatusNotFound)
    case Failed => Refused(StatusInternalServerError)
    case Found(account) =>
      if account.currency != currency then Refused(StatusBadRequest) else Usable(account)
  }

  /** The arguments createTransfer hands to TransferTx. */
  function Params(req: TransferRequest): TransferTxParams {
    TransferTxParams(req.fromAccountId, req.toAccountId, req.amount)
  }

  /**
   * createTransfer, for the caller `username`; `reply` is what TransferTx
   * returns if it is called.
   */
  function Create<R>(body: Option<TransferRequest>, username: string, currencies: set<string>, store: Store,
                     reply: Reply<R>): (o: Outcome<R>)
    ensures !Binds(body, currencies) ==> o == Fail([], StatusBadRequest)
    ensures Binds(body, currencies) ==> |o.calls| >= 1 && o.calls[0] == GetAccount(body.value.fromAccountId)
    ensures Binds(body, currencies) ==>
              (TransferTx(Params(body.value)) in o.calls <==> Permitted(body.value, username, store))
    ensures forall c | c in o.calls :: c.TransferTx? ==> Binds(body, currencies) && c == TransferTx(Params(body.value))
    ensures o.status == StatusOK <==> Binds(body, currencies) && Permitted(body.value, username, store) && reply.Ok?
    ensures o.status == StatusOK ==> o.body == Some(reply.value)
    ensures o.status != StatusOK ==> o.body == None
    ensures o.status in {StatusOK, StatusBadRequest, StatusUnauthorized, StatusNotFound, StatusInternalServerError}
  {
    if !Binds(body, currencies) then Fail([], StatusBadRequest)
    else
      var req := body.value;
      match ValidAccountCurrency(store, req.fromAccountId, req.currency)
      case Refused(status) => Fail([GetAccount(req.fromAccountId)], status)
      case Usable(fromAccount) =>
        if fromAccount.owner != username then Fail([GetAccount(req.fromAccountId)], StatusUnauthorized)
        else
          var lookups := [GetAccount(req.fromAccountId), GetAccount(req.toAccountId)];
          match ValidAccountCurrency(store, req.toAccountId, req.currency)
          case Refused(status) => Fail(lookups, status)
          case Usable(_) => Conclude(lookups + [TransferTx(Params(req))], reply)
  }

  /**
   * The guards run in a fixed order: a failing origin account decides the
   * status; an ownership failure answers 401 before the destination is looked
   * up; only then is the destination checked; and a request that passes all
   * three issues exactly two lookups and one TransferTx.
   */
  lemma CheckOrder<R>(req: TransferRequest, username: string, currencies: set<string>, store: Store, reply: Reply<R>)
    requires Binds(Some(req), currencies)
    ensures var o := Create(Some(req), username, currencies, store, reply);
      && (!UsableIn(store, req.fromAccountId, req.currency) ==>
            o == Fail([GetAccount(req.fromAccountId)], ValidAccountCurrency(store, req.fromAccountId, req.currency).status))
      && (UsableIn(store, req.fromAccountId, req.currency) && store.accounts[req.fromAccountId].owner != username ==>
            o == Fail([GetAccount(req.fromAccountId)], StatusUnauthorized))
      && (UsableIn(store, req.fromAccountId, req.currency) && store.accounts[req.fromAccountId].owner == username
          && !UsableIn(store, req.toAccountId, req.currency) ==>
            o == Fail([GetAccount(req.fromAccountId), GetAccount(req.toAccountId)],
                      ValidAccountCurrency(store, req.toAccountId, req.currency).status))
      && (Permitted(req, username, store) ==>
            o.calls == [GetAccount(req.fromAccountId), GetAccount(req.toAccountId), TransferTx(Params(req))])
  {
  }

  /** A TransferTx error is answered with 500, its success with 200 carrying the result. */
  lemma TransferReply<R>(req: TransferRequest, username: string, currencies: set<string>, store: Store, reply: Reply<R>)
    requires Binds(Some(req), currencies) && Permitted(req, username, store)
    ensures var o := Create(Some(req), username, currencies, store, reply);
      && (reply.Err? ==> o.status == StatusInternalServerError)
      && (reply.Ok? ==> o.status == StatusOK && o.body == Some(reply.value))
  {
  }

  /**
   * There is no check that the two accounts differ: a transfer from an owned,
   * usable account to itself reaches TransferTx with equal ids.
   */
  lemma SelfTransferReachesTransferTx<R>(req: TransferRequest, username: string, currencies: set<string>, store: Store,
                                         reply: Reply<R>)
    requires Binds(Some(req), currencies) && req.fromAccountId == req.toAccountId
    requires UsableIn(store, req.fromAccountId, req.currency) && store.accounts[req.fromAccountId].owner == username
    ensures Create(Some(req), username, currencies, store, reply).calls ==
      [GetAccount(req.fromAccountId), GetAccount(req.fromAccountId),
       TransferTx(TransferTxParams(req.fromAccountId, req.fromAccountId, req.amount))]
  {
  }
}
